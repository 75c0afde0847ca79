/** Changed files: fetching them page by page (github/client.py) and parsing them (github/diff.py). */
module ChangedFiles {
  import opened Text
  import opened Json
  import DiffLines
  import PatchMeaning

  /** One entry of the files response; `None` where the key is absent. */
  datatype FileEntry = FileEntry(filename: Option<Json>, status: Option<Json>, additions: Option<Json>,
                                 deletions: Option<Json>, patch: Option<Json>, previousFilename: Option<Json>)

  datatype FileDiff = FileDiff(path: string, changeType: string, additions: int, deletions: int, patch: Option<string>,
                               previousPath: Option<string>, lineMap: map<int, int>, addedLines: set<int>)
  {
    predicate IsReviewable() {
      patch.Some? && patch.value != "" && changeType != "removed"
    }

    function Cost(): int {
      additions + deletions
    }
  }

  /** `str(entry.get(key, default))`. */
  function ShownOr(o: Option<Json>, default: string): string {
    match o case Some(j) => Show(j) case None => default
  }

  /** `int(entry.get(key, 0) or 0)`. */
  function CountOf(o: Option<Json>): Coerced {
    match o case Some(j) => ToInt(j) case None => Int(0)
  }

  /** The value where it is a string. */
  function TextOnly(o: Option<Json>): Option<string> {
    match o case Some(Str(text)) => Some(text) case _ => None
  }

  /** The exception parsing an entry raises, if it does: that of its first count that is no number. */
  function FailureOf(entry: FileEntry): Option<string> {
    match CountOf(entry.additions)
    case Raises(kind) => Some(kind)
    case Int(_) =>
      match CountOf(entry.deletions)
      case Raises(kind) => Some(kind)
      case Int(_) => None
  }

  function FirstFailure(payload: seq<FileEntry>): Option<string> {
    if payload == [] then None
    else if FailureOf(payload[0]).Some? then FailureOf(payload[0])
    else FirstFailure(payload[1..])
  }

  datatype Parsed = Parsed(files: seq<FileDiff>) | Failed(kind: string)

  /** A parsed entry: its fields, with the source's defaults, and the line map its patch means. */
  ghost predicate ParsedFrom(entry: FileEntry, diff: FileDiff) {
    && diff.path == ShownOr(entry.filename, "") && diff.changeType == ShownOr(entry.status, "modified")
    && CountOf(entry.additions) == Int(diff.additions) && CountOf(entry.deletions) == Int(diff.deletions)
    && diff.patch == TextOnly(entry.patch) && diff.previousPath == TextOnly(entry.previousFilename)
    && (if diff.patch.Some? && diff.patch.value != ""
        then PatchMeaning.IsLineMapOf(diff.patch.value, diff.lineMap, diff.addedLines)
        else diff.lineMap == map[] && diff.addedLines == {})
  }

  ghost predicate ParsedAll(payload: seq<FileEntry>, diffs: seq<FileDiff>) {
    |diffs| == |payload| && forall i :: 0 <= i < |payload| ==> ParsedFrom(payload[i], diffs[i])
  }

  /** Every entry is parsed, or the first one that cannot be ends the parsing. */
  method ParseFiles(payload: seq<FileEntry>) returns (result: Parsed)
    ensures result.Parsed? ==> FirstFailure(payload) == None && ParsedAll(payload, result.files)
    ensures result.Failed? ==> FirstFailure(payload) == Some(result.kind)
  {
    hide DiffLines.Anchors, CountOf, ShownOr, TextOnly;
    var files := [];
    assert payload[0..] == payload;
    for i := 0 to |payload|
      invariant |files| == i && forall j :: 0 <= j < i ==> ParsedFrom(payload[j], files[j])
      invariant FirstFailure(payload) == FirstFailure(payload[i..])
    {
      var entry := payload[i];
      assert payload[i..][0] == entry && payload[i..][1..] == payload[i + 1..];
      var additions := CountOf(entry.additions);
      if additions.Raises? {
        return Failed(additions.kind);
      }
      var deletions := CountOf(entry.deletions);
      if deletions.Raises? {
        return Failed(deletions.kind);
      }
      var diff := FileDiff(ShownOr(entry.filename, ""), ShownOr(entry.status, "modified"), additions.value,
                           deletions.value, TextOnly(entry.patch), TextOnly(entry.previousFilename), map[], {});
      if diff.patch.Some? && diff.patch.value != "" {
        var lineMap, added := DiffLines.BuildLineMap(diff.patch.value);
        diff := diff.(lineMap := lineMap, addedLines := added);
      }
      files := files + [diff];
    }
    result := Parsed(files);
  }

  /** The first entry with a count that is no number, and of its counts the first such, decide the exception. */
  lemma {:induction false} FailureMeaning(payload: seq<FileEntry>, kind: string)
    ensures FirstFailure(payload) == Some(kind) <==>
            exists i :: 0 <= i < |payload| && FailsWith(payload[i], kind) && SucceedBefore(payload, i)
    ensures FirstFailure(payload) == None <==> forall j :: 0 <= j < |payload| ==> Succeeds(payload[j])
  {
    if payload != [] {
      FailureMeaning(payload[1..], kind);
      assert forall j :: 0 < j < |payload| ==> payload[j] == payload[1..][j - 1];
      if i :| 0 <= i < |payload| && FailsWith(payload[i], kind) && SucceedBefore(payload, i) {
        assert i > 0 ==> FailsWith(payload[1..][i - 1], kind) && SucceedBefore(payload[1..], i - 1);
      }
      if i :| 0 <= i < |payload| - 1 && FailsWith(payload[1..][i], kind) && SucceedBefore(payload[1..], i) {
        assert FailsWith(payload[i + 1], kind);
        assert Succeeds(payload[0]) ==> SucceedBefore(payload, i + 1);
      }
      assert SucceedBefore(payload, 0);
    }
  }

  predicate Succeeds(entry: FileEntry) {
    CountOf(entry.additions).Int? && CountOf(entry.deletions).Int?
  }

  predicate SucceedBefore(payload: seq<FileEntry>, i: int)
    requires i <= |payload|
  {
    forall j :: 0 <= j < i ==> Succeeds(payload[j])
  }

  predicate FailsWith(entry: FileEntry, kind: string) {
    || CountOf(entry.additions) == Raises(kind)
    || (CountOf(entry.additions).Int? && CountOf(entry.deletions) == Raises(kind))
  }

  /** What each field of a parsed entry is, for the values the API sends. */
  lemma ParsedInFields(entry: FileEntry, diff: FileDiff, text: string, n: int)
    requires ParsedFrom(entry, diff)
    ensures entry.filename == Some(Str(text)) ==> diff.path == text
    ensures entry.filename == None ==> diff.path == ""
    ensures entry.status == Some(Str(text)) ==> diff.changeType == text
    ensures entry.status == None ==> diff.changeType == "modified"
    ensures entry.additions == Some(Integer(n)) ==> diff.additions == n
    ensures entry.additions == None || entry.additions == Some(Null) ==> diff.additions == 0
    ensures entry.deletions == Some(Integer(n)) ==> diff.deletions == n
    ensures entry.deletions == None || entry.deletions == Some(Null) ==> diff.deletions == 0
    ensures entry.patch == Some(Str(text)) ==> diff.patch == Some(text)
    ensures entry.patch == None || !entry.patch.value.Str? ==> diff.patch == None && diff.lineMap == map[]
    ensures entry.previousFilename == Some(Str(text)) ==> diff.previousPath == Some(text)
    ensures entry.previousFilename == None || !entry.previousFilename.value.Str? ==> diff.previousPath == None
    ensures diff.Cost() == diff.additions + diff.deletions
    ensures diff.IsReviewable() <==> diff.patch.Some? && diff.patch.value != "" && diff.changeType != "removed"
  {
    hide PatchMeaning.IsLineMapOf;
  }

  predicate DistinctPaths(diffs: seq<FileDiff>) {
    forall i, j :: 0 <= i < j < |diffs| ==> diffs[i].path != diffs[j].path
  }

  /** Parsing loses no freedom: an entry has one parsed form, and none exactly when its counts raise. */
  lemma ParsedFormIsUnique(entry: FileEntry, d1: FileDiff, d2: FileDiff)
    requires ParsedFrom(entry, d1) && ParsedFrom(entry, d2)
    ensures d1 == d2 && FailureOf(entry) == None
  {
    if d1.patch.Some? && d1.patch.value != "" {
      hide DiffLines.Anchors;
      var ks := DiffLines.Kinds(DiffLines.PatchLines(d1.patch.value));
      DiffLines.AnchorsAreUnique(ks, d1.lineMap, d1.addedLines, d2.lineMap, d2.addedLines);
    }
  }

  /* ---- pagination ---- */

  /**
   * What one request comes to: no response after the retries, or a status, a batch, and whether a
   * next page is linked.
   */
  datatype Reply = Unreachable | Reply(status: int, batch: seq<FileEntry>, next: bool)

  datatype Outcome = Files(files: seq<FileEntry>) | GitHubError(status: Option<int>) | NotOpen

  /** `files[:n]`. */
  function Upto(files: seq<FileEntry>, n: int): seq<FileEntry> {
    if n >= |files| then files else if n >= 0 then files[..n] else if |files| + n >= 0 then files[..|files| + n] else []
  }

  datatype Fetched = Fetched(outcome: Outcome, requests: seq<nat>)

  /** The loop from `page` on, with `files` already collected: its result and the pages it asks for. */
  function Fetch(server: nat -> Reply, maxFiles: int, page: nat, files: seq<FileEntry>): Fetched
    decreases maxFiles - |files|
  {
    if |files| >= maxFiles then Fetched(Files(Upto(files, maxFiles)), [])
    else match server(page)
      case Unreachable => Fetched(GitHubError(None), [page])
      case Reply(status, batch, next) =>
        if status >= 400 then Fetched(GitHubError(Some(status)), [page])
        else if batch == [] then Fetched(Files(Upto(files, maxFiles)), [page])
        else if !next then Fetched(Files(Upto(files + batch, maxFiles)), [page])
        else
          var rest := Fetch(server, maxFiles, page + 1, files + batch);
          Fetched(rest.outcome, [page] + rest.requests)
  }

  class GitHubClient {
    /** Whether the HTTP client is open: it is, between entering and leaving the context. */
    var http: bool
    var requests: seq<nat>
    const server: nat -> Reply

    constructor (server: nat -> Reply)
      ensures !http && requests == [] && this.server == server
    {
      this.server, http, requests := server, false, [];
    }

    method Enter()
      modifies this`http
      ensures http
    {
      http := true;
    }

    method Exit()
      modifies this`http
      ensures !http
    {
      http := false;
    }

    method GetPullFiles(maxFiles: int) returns (r: Outcome)
      modifies this`requests
      ensures !http ==> requests == old(requests) && r == if maxFiles <= 0 then Files([]) else NotOpen
      ensures http ==> r == Fetch(server, maxFiles, 1, []).outcome
      ensures http ==> requests == old(requests) + Fetch(server, maxFiles, 1, []).requests
    {
      var files := [];
      var page: nat := 1;
      while |files| < maxFiles
        invariant !http ==> files == [] && requests == old(requests)
        invariant http ==> Fetch(server, maxFiles, 1, []).outcome == Fetch(server, maxFiles, page, files).outcome
        invariant http ==>
                    old(requests) + Fetch(server, maxFiles, 1, []).requests ==
                    requests + Fetch(server, maxFiles, page, files).requests
        decreases maxFiles - |files|
      {
        if !http {
          return NotOpen;
        }
        requests := requests + [page];
        var response := server(page);
        if response.Unreachable? {
          return GitHubError(None);
        }
        if response.status >= 400 {
          return GitHubError(Some(response.status));
        }
        var batch := response.batch;
        if batch == [] {
          break;
        }
        files := files + batch;
        if !response.next {
          break;
        }
        page := page + 1;
      }
      r := Files(Upto(files, maxFiles));
    }
  }

  function Flatten(pages: seq<seq<FileEntry>>): seq<FileEntry> {
    if pages == [] then [] else pages[0] + Flatten(pages[1..])
  }

  /** A server that holds these pages, each but the last linking to the next. */
  function Serving(pages: seq<seq<FileEntry>>): nat -> Reply {
    p => if 1 <= p <= |pages| then Reply(200, pages[p - 1], p < |pages|) else Reply(200, [], false)
  }

  lemma {:induction false} FlattenSnoc(pages: seq<seq<FileEntry>>, k: nat)
    requires k < |pages|
    ensures Flatten(pages[..k + 1]) == Flatten(pages[..k]) + pages[k]
  {
    if k == 0 {
      assert pages[..1] == [pages[0]] && pages[..0] == [];
    } else {
      assert pages[..k + 1][1..] == pages[1..][..k] && pages[..k][1..] == pages[1..][..k - 1];
      FlattenSnoc(pages[1..], k - 1);
    }
  }

  lemma {:induction false} FlattenPrefix(pages: seq<seq<FileEntry>>, k: nat)
    requires k <= |pages|
    ensures Flatten(pages[..k]) <= Flatten(pages)
    decreases |pages| - k
  {
    if k == |pages| {
      assert pages[..k] == pages;
    } else {
      FlattenSnoc(pages, k);
      FlattenPrefix(pages, k + 1);
    }
  }

  /** The pages before page `p` do not reach the cap; there is a page `p`, or there are none at all. */
  predicate StillShort(pages: seq<seq<FileEntry>>, maxFiles: int, p: nat) {
    1 <= p && (if p <= |pages| then |Flatten(pages[..p - 1])| < maxFiles else p == 1)
  }

  /** Pages are asked for in order from `from`, each because the cap was not yet reached. */
  ghost predicate AsksWhileShort(pages: seq<seq<FileEntry>>, maxFiles: int, from: nat, requests: seq<nat>) {
    forall i :: 0 <= i < |requests| ==> requests[i] == from + i && StillShort(pages, maxFiles, requests[i])
  }

  lemma AskedBefore(pages: seq<seq<FileEntry>>, maxFiles: int, from: nat, requests: seq<nat>)
    requires StillShort(pages, maxFiles, from) && AsksWhileShort(pages, maxFiles, from + 1, requests)
    ensures AsksWhileShort(pages, maxFiles, from, [from] + requests)
  {
    hide StillShort;
  }

  lemma NoneAsked(pages: seq<seq<FileEntry>>, maxFiles: int, from: nat)
    ensures AsksWhileShort(pages, maxFiles, from, [])
  {
  }

  lemma {:induction false} FetchFromPage(pages: seq<seq<FileEntry>>, maxFiles: int, k: nat)
    requires forall i :: 0 <= i < |pages| ==> pages[i] != []
    requires k <= |pages| && (k == |pages| ==> k == 0)
    requires maxFiles >= 0
    ensures var f := Fetch(Serving(pages), maxFiles, k + 1, Flatten(pages[..k]));
      && f.outcome == Files(Upto(Flatten(pages), maxFiles))
      && AsksWhileShort(pages, maxFiles, k + 1, f.requests)
    decreases |pages| - k
  {
    var files := Flatten(pages[..k]);
    FlattenPrefix(pages, k);
    NoneAsked(pages, maxFiles, k + 1);
    hide AsksWhileShort;
    if |files| < maxFiles && k < |pages| {
      FlattenSnoc(pages, k);
      assert StillShort(pages, maxFiles, k + 1);
      if k + 1 < |pages| {
        FetchFromPage(pages, maxFiles, k + 1);
        AskedBefore(pages, maxFiles, k + 1, Fetch(Serving(pages), maxFiles, k + 2, Flatten(pages[..k + 1])).requests);
      } else {
        assert pages[..k + 1] == pages;
        NoneAsked(pages, maxFiles, k + 2);
        AskedBefore(pages, maxFiles, k + 1, []);
      }
    } else if k == |pages| {
      assert pages[..k] == pages;
      if |files| < maxFiles {
        NoneAsked(pages, maxFiles, k + 2);
        AskedBefore(pages, maxFiles, k + 1, []);
      }
    }
  }

  /**
   * However the list is cut into pages, the client returns its first `maxFiles` entries
   * in order, asks for pages 1, 2, ... and for none after the one that reaches the cap.
   */
  lemma PaginationIsTake(pages: seq<seq<FileEntry>>, maxFiles: int)
    requires forall i :: 0 <= i < |pages| ==> pages[i] != []
    ensures var f := Fetch(Serving(pages), maxFiles, 1, []);
      && f.outcome == Files(if maxFiles <= 0 then [] else if |Flatten(pages)| <= maxFiles then Flatten(pages)
                            else Flatten(pages)[..maxFiles])
      && AsksWhileShort(pages, maxFiles, 1, f.requests)
  {
    if maxFiles >= 0 {
      FetchFromPage(pages, maxFiles, 0);
      assert pages[..0] == [];
    }
  }

  /** The entries of the first `n` pages. */
  function Got(server: nat -> Reply, n: nat): seq<FileEntry> {
    if n == 0 then [] else Got(server, n - 1) + if server(n).Reply? then server(n).batch else []
  }

  predicate LeadsOn(r: Reply) {
    r.Reply? && r.status < 400 && r.batch != [] && r.next
  }

  /** What the last page asked for settles. */
  predicate Settles(server: nat -> Reply, maxFiles: int, n: nat, outcome: Outcome) {
    match server(n)
    case Unreachable => outcome == GitHubError(None)
    case Reply(status, batch, next) =>
      if status >= 400 then outcome == GitHubError(Some(status))
      else
        && outcome.Files? && outcome.files <= Got(server, n)
        && |outcome.files| == (if |Got(server, n)| <= maxFiles then |Got(server, n)| else maxFiles)
        && (batch == [] || !next || |Got(server, n)| >= maxFiles)
  }

  /** The pages asked for from `page` on: each because the one before led on and the files were too few. */
  predicate AsksRightly(server: nat -> Reply, maxFiles: int, page: nat, requests: seq<nat>) {
    && (forall i :: 0 <= i < |requests| ==> requests[i] == page + i)
    && (forall p: nat :: p in requests ==> 1 <= p && |Got(server, p - 1)| < maxFiles)
    && (forall i :: 0 <= i < |requests| - 1 ==> LeadsOn(server(requests[i])))
  }

  lemma {:induction false} FetchOnwards(server: nat -> Reply, maxFiles: int, page: nat)
    requires 1 <= page && |Got(server, page - 1)| < maxFiles
    ensures var f := Fetch(server, maxFiles, page, Got(server, page - 1));
      && f.requests != [] && AsksRightly(server, maxFiles, page, f.requests)
      && Settles(server, maxFiles, page + |f.requests| - 1, f.outcome)
    decreases maxFiles - |Got(server, page - 1)|
  {
    if LeadsOn(server(page)) && |Got(server, page)| < maxFiles {
      hide Got;
      assert Got(server, page) == Got(server, page - 1) + server(page).batch by { GotNext(server, page); }
      FetchOnwards(server, maxFiles, page + 1);
      var rest := Fetch(server, maxFiles, page + 1, Got(server, page));
      AsksBefore(server, maxFiles, page, rest.requests);
    } else {
      hide AsksRightly;
      FetchStops(server, maxFiles, page);
    }
  }

  lemma GotNext(server: nat -> Reply, page: nat)
    requires 1 <= page && server(page).Reply?
    ensures Got(server, page) == Got(server, page - 1) + server(page).batch
  {
  }

  lemma AsksBefore(server: nat -> Reply, maxFiles: int, page: nat, requests: seq<nat>)
    requires 1 <= page && |Got(server, page - 1)| < maxFiles && LeadsOn(server(page))
    requires AsksRightly(server, maxFiles, page + 1, requests)
    ensures AsksRightly(server, maxFiles, page, [page] + requests)
  {
    hide Got, LeadsOn;
    var all := [page] + requests;
    forall i | 0 <= i < |all| ensures all[i] == page + i {
      assert i == 0 || all[i] == requests[i - 1];
    }
    forall i | 0 <= i < |all| - 1 ensures LeadsOn(server(all[i])) {
      assert i == 0 || all[i] == requests[i - 1];
    }
  }

  lemma FetchStops(server: nat -> Reply, maxFiles: int, page: nat)
    requires 1 <= page && |Got(server, page - 1)| < maxFiles
    requires !LeadsOn(server(page)) || |Got(server, page)| >= maxFiles
    ensures var f := Fetch(server, maxFiles, page, Got(server, page - 1));
      f.requests == [page] && AsksRightly(server, maxFiles, page, f.requests)
        && Settles(server, maxFiles, page, f.outcome)
  {
    var files := Got(server, page - 1);
    if server(page).Reply? {
      GotNext(server, page);
      assert Got(server, page) == files + server(page).batch;
      assert server(page).batch == [] ==> Got(server, page) == files;
    }
  }

  /**
   * For any server, failures included: pages 1, 2, ... are asked for as long as each leads on
   * to another and the files so far are too few, and the last one settles what is returned,
   * the first `maxFiles` of all the entries got or the error of that page.
   */
  lemma FetchMeaning(server: nat -> Reply, maxFiles: int)
    ensures var f := Fetch(server, maxFiles, 1, []);
      if maxFiles <= 0 then f.requests == [] && f.outcome == Files([])
      else
        && f.requests != [] && AsksRightly(server, maxFiles, 1, f.requests)
        && Settles(server, maxFiles, |f.requests|, f.outcome)
  {
    if maxFiles > 0 {
      assert Got(server, 0) == [];
      FetchOnwards(server, maxFiles, 1);
    }
  }

  /** Whatever the server answers: at most `maxFiles` requests, and never more than `maxFiles` entries. */
  lemma {:induction false} FetchIsBounded(server: nat -> Reply, maxFiles: int, page: nat, files: seq<FileEntry>)
    requires 0 <= maxFiles
    ensures var f := Fetch(server, maxFiles, page, files);
      && (|files| <= maxFiles ==> |f.requests| <= maxFiles - |files|)
      && (f.outcome.Files? ==> |f.outcome.files| <= maxFiles)
    decreases maxFiles - |files|
  {
    if |files| < maxFiles {
      match server(page) {
        case Unreachable =>
        case Reply(status, batch, next) =>
          if status < 400 && batch != [] && next {
            FetchIsBounded(server, maxFiles, page + 1, files + batch);
          }
      }
    }
  }
}
