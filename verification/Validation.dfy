/** Keeping the findings that point at a changed line, one per key (apps/worker/tasks.py, `_validate`). */
module Validation {
  import opened Text
  import opened StableSort

  datatype Finding = Finding(file: string, line: int, severity: string, category: string, title: string,
                             description: string, confidence: real)

  type LineMaps = map<string, map<int, int>>
  type AddedSets = map<string, set<int>>

  /** `SEVERITY_ORDER.get(severity, 9)`. */
  function SeverityRank(severity: string): int {
    if severity == "CRITICAL" then 0
    else if severity == "HIGH" then 1
    else if severity == "MEDIUM" then 2
    else if severity == "LOW" then 3
    else if severity == "INFO" then 4
    else 9
  }

  /** By severity, then by falling confidence. */
  predicate Outranks(a: Finding, b: Finding) {
    var sa, sb := SeverityRank(a.severity), SeverityRank(b.severity);
    sa < sb || (sa == sb && a.confidence >= b.confidence)
  }

  /** One of the known severities, and not as late in their order as the other. */
  predicate MoreSevere(a: string, b: string) {
    var order := ["CRITICAL", "HIGH", "MEDIUM", "LOW", "INFO"];
    exists i :: 0 <= i < 5 && a == order[i] && b !in order[..i + 1]
  }

  /** More severe, or as severe and more confident. */
  predicate Beats(a: Finding, b: Finding) {
    MoreSevere(a.severity, b.severity) || (!MoreSevere(b.severity, a.severity) && a.confidence > b.confidence)
  }

  lemma {:induction false} SeverityUpTo(b: string, i: nat)
    requires i < 5
    ensures b in ["CRITICAL", "HIGH", "MEDIUM", "LOW", "INFO"][..i + 1] <==> SeverityRank(b) <= i
  {
    var order := ["CRITICAL", "HIGH", "MEDIUM", "LOW", "INFO"];
    assert order[..i + 1] == order[..i] + [order[i]];
    if i > 0 {
      SeverityUpTo(b, i - 1);
    }
  }

  lemma SeverityRankMeaning(a: string, b: string)
    ensures MoreSevere(a, b) <==> SeverityRank(a) < SeverityRank(b)
  {
    var order := ["CRITICAL", "HIGH", "MEDIUM", "LOW", "INFO"];
    var r := SeverityRank(a);
    if r < 5 {
      SeverityUpTo(b, r);
      assert a == order[r];
    }
    if i :| 0 <= i < 5 && a == order[i] && b !in order[..i + 1] {
      SeverityUpTo(b, i);
      assert i == r;
    }
  }

  /** The sort key, in plain terms. */
  lemma OutranksMeaning(a: Finding, b: Finding)
    ensures Outranks(a, b) <==> !Beats(b, a)
  {
    hide MoreSevere, SeverityRank;
    SeverityRankMeaning(a.severity, b.severity);
    SeverityRankMeaning(b.severity, a.severity);
  }

  lemma OutranksIsAPreorder(dom: set<Finding>)
    ensures PreorderOn(dom, Outranks)
  {
  }

  datatype Reason = UnknownFile | OutsideDiff | UnchangedLine | Duplicate

  /** Why a finding cannot be anchored, if it cannot. */
  function Obstacle(f: Finding, lineMaps: LineMaps, added: AddedSets): (r: Option<Reason>)
    ensures r != Some(Duplicate)
  {
    if f.file !in lineMaps then Some(UnknownFile)
    else if f.line !in lineMaps[f.file] then Some(OutsideDiff)
    else if f.file !in added || f.line !in added[f.file] then Some(UnchangedLine)
    else None
  }

  datatype Key = Key(file: string, line: int, category: string)

  function KeyOf(f: Finding): Key {
    Key(f.file, f.line, f.category)
  }

  datatype Kept = Kept(finding: Finding, position: int)
  datatype Dropped = Dropped(finding: Finding, reason: Reason)
  datatype Verdict = Verdict(kept: seq<Kept>, dropped: seq<Dropped>)

  /** The loop over findings already in rank order. */
  function Judge(ranked: seq<Finding>, lineMaps: LineMaps, added: AddedSets, seen: set<Key>): Verdict {
    if ranked == [] then Verdict([], [])
    else
      var f := ranked[0];
      match Obstacle(f, lineMaps, added)
      case Some(reason) =>
        var rest := Judge(ranked[1..], lineMaps, added, seen);
        rest.(dropped := [Dropped(f, reason)] + rest.dropped)
      case None =>
        if KeyOf(f) in seen then
          var rest := Judge(ranked[1..], lineMaps, added, seen);
          rest.(dropped := [Dropped(f, Duplicate)] + rest.dropped)
        else
          var rest := Judge(ranked[1..], lineMaps, added, seen + {KeyOf(f)});
          rest.(kept := [Kept(f, lineMaps[f.file][f.line])] + rest.kept)
  }

  function Validated(findings: seq<Finding>, lineMaps: LineMaps, added: AddedSets): Verdict {
    Judge(Sort(findings, Outranks), lineMaps, added, {})
  }

  /** What the lists come to when the rest is appended. */
  function Resume(kept: seq<Kept>, dropped: seq<Dropped>, rest: Verdict): Verdict {
    Verdict(kept + rest.kept, dropped + rest.dropped)
  }

  lemma ResumeKeep(kept: seq<Kept>, dropped: seq<Dropped>, k: Kept, rest: Verdict)
    ensures Resume(kept, dropped, rest.(kept := [k] + rest.kept)) == Resume(kept + [k], dropped, rest)
  {
    Regroup(kept, [k], rest.kept);
  }

  lemma ResumeDrop(kept: seq<Kept>, dropped: seq<Dropped>, d: Dropped, rest: Verdict)
    ensures Resume(kept, dropped, rest.(dropped := [d] + rest.dropped)) == Resume(kept, dropped + [d], rest)
  {
    Regroup(dropped, [d], rest.dropped);
  }

  method Validate(findings: seq<Finding>, lineMaps: LineMaps, addedLines: AddedSets)
    returns (kept: seq<Kept>, dropped: seq<Dropped>)
    ensures Verdict(kept, dropped) == Validated(findings, lineMaps, addedLines)
  {
    hide Sort, Resume;
    kept, dropped := [], [];
    var seen: set<Key> := {};
    var ranked := Sort(findings, Outranks);
    ghost var whole := Judge(ranked, lineMaps, addedLines, {});
    assert ranked[0..] == ranked && Resume([], [], whole) == whole by { ResumeNothing(whole); }
    for i := 0 to |ranked|
      invariant Resume(kept, dropped, Judge(ranked[i..], lineMaps, addedLines, seen)) == whole
    {
      var finding := ranked[i];
      assert ranked[i..][0] == finding && ranked[i..][1..] == ranked[i + 1..];
      ghost var rest := Judge(ranked[i + 1..], lineMaps, addedLines, seen);
      if finding.file !in lineMaps {
        ResumeDrop(kept, dropped, Dropped(finding, UnknownFile), rest);
        dropped := dropped + [Dropped(finding, UnknownFile)];
        continue;
      }
      if finding.line !in lineMaps[finding.file] {
        ResumeDrop(kept, dropped, Dropped(finding, OutsideDiff), rest);
        dropped := dropped + [Dropped(finding, OutsideDiff)];
        continue;
      }
      var position := lineMaps[finding.file][finding.line];
      if finding.line !in (if finding.file in addedLines then addedLines[finding.file] else {}) {
        ResumeDrop(kept, dropped, Dropped(finding, UnchangedLine), rest);
        dropped := dropped + [Dropped(finding, UnchangedLine)];
        continue;
      }
      var key := Key(finding.file, finding.line, finding.category);
      if key in seen {
        ResumeDrop(kept, dropped, Dropped(finding, Duplicate), rest);
        dropped := dropped + [Dropped(finding, Duplicate)];
        continue;
      }
      seen := seen + {key};
      ResumeKeep(kept, dropped, Kept(finding, position), Judge(ranked[i + 1..], lineMaps, addedLines, seen));
      kept := kept + [Kept(finding, position)];
    }
    ResumeNothing(Verdict(kept, dropped));
  }

  lemma ResumeNothing(v: Verdict)
    ensures Resume([], [], v) == v && Resume(v.kept, v.dropped, Verdict([], [])) == v
  {
  }

  /* ---- what is kept and dropped ---- */

  function KeptFindings(kept: seq<Kept>): seq<Finding> {
    if kept == [] then [] else [kept[0].finding] + KeptFindings(kept[1..])
  }

  function DroppedFindings(dropped: seq<Dropped>): seq<Finding> {
    if dropped == [] then [] else [dropped[0].finding] + DroppedFindings(dropped[1..])
  }

  /** One step of `Judge`: the first finding is kept or dropped, and `rest` is the verdict on the others. */
  lemma JudgeHead(ranked: seq<Finding>, lineMaps: LineMaps, added: AddedSets, seen: set<Key>)
    returns (keeps: bool, rest: Verdict)
    requires ranked != []
    ensures keeps <==> Obstacle(ranked[0], lineMaps, added) == None && KeyOf(ranked[0]) !in seen
    ensures rest == Judge(ranked[1..], lineMaps, added, if keeps then seen + {KeyOf(ranked[0])} else seen)
    ensures var v := Judge(ranked, lineMaps, added, seen);
      var kept, dropped := KeptFindings(v.kept), DroppedFindings(v.dropped);
      if keeps then kept == [ranked[0]] + KeptFindings(rest.kept) && dropped == DroppedFindings(rest.dropped)
      else kept == KeptFindings(rest.kept) && dropped == [ranked[0]] + DroppedFindings(rest.dropped)
  {
    hide Obstacle, KeyOf;
    keeps := Obstacle(ranked[0], lineMaps, added) == None && KeyOf(ranked[0]) !in seen;
    rest := Judge(ranked[1..], lineMaps, added, if keeps then seen + {KeyOf(ranked[0])} else seen);
    var v := Judge(ranked, lineMaps, added, seen);
    assert if keeps then v.kept[1..] == rest.kept else v.dropped[1..] == rest.dropped;
  }

  lemma {:induction false} JudgeIsAPartition(ranked: seq<Finding>, lineMaps: LineMaps, added: AddedSets, seen: set<Key>)
    ensures var v := Judge(ranked, lineMaps, added, seen);
      multiset(KeptFindings(v.kept)) + multiset(DroppedFindings(v.dropped)) == multiset(ranked)
  {
    hide Obstacle, KeyOf;
    if ranked != [] {
      var keeps, rest := JudgeHead(ranked, lineMaps, added, seen);
      JudgeIsAPartition(ranked[1..], lineMaps, added, if keeps then seen + {KeyOf(ranked[0])} else seen);
      hide Judge, KeptFindings, DroppedFindings;
      ShareOne(ranked, KeptFindings(rest.kept), DroppedFindings(rest.dropped));
    }
  }

  lemma ShareOne(whole: seq<Finding>, kept: seq<Finding>, dropped: seq<Finding>)
    requires whole != [] && multiset(kept) + multiset(dropped) == multiset(whole[1..])
    ensures multiset([whole[0]] + kept) + multiset(dropped) == multiset(whole)
    ensures multiset(kept) + multiset([whole[0]] + dropped) == multiset(whole)
  {
    assert whole == [whole[0]] + whole[1..];
  }

  /** Every kept finding can be anchored and carries its mapped position; every dropped one its reason. */
  lemma {:induction false} JudgeIsFair(ranked: seq<Finding>, lineMaps: LineMaps, added: AddedSets, seen: set<Key>)
    ensures var v := Judge(ranked, lineMaps, added, seen);
      && (forall k :: k in v.kept ==>
            Obstacle(k.finding, lineMaps, added) == None && k.position == lineMaps[k.finding.file][k.finding.line])
      && (forall d :: d in v.dropped ==>
            Obstacle(d.finding, lineMaps, added) == if d.reason == Duplicate then None else Some(d.reason))
  {
    if ranked != [] {
      var f := ranked[0];
      JudgeIsFair(ranked[1..], lineMaps, added, seen);
      JudgeIsFair(ranked[1..], lineMaps, added, seen + {KeyOf(f)});
    }
  }

  /** Anchorable findings with the given key. */
  function Matching(key: Key, lineMaps: LineMaps, added: AddedSets): Finding -> bool {
    f => KeyOf(f) == key && Obstacle(f, lineMaps, added) == None
  }

  function WithKey(key: Key): Finding -> bool {
    f => KeyOf(f) == key
  }

  /** Of each key, the first anchorable finding in rank order is kept, and no other. */
  lemma {:induction false} JudgeKeepsFirst(ranked: seq<Finding>, lineMaps: LineMaps, added: AddedSets, seen: set<Key>,
                                           key: Key)
    ensures var kept := KeptFindings(Judge(ranked, lineMaps, added, seen).kept);
      var all := Filter(ranked, Matching(key, lineMaps, added));
      Filter(kept, WithKey(key)) == if key in seen || all == [] then [] else [all[0]]
  {
    if ranked != [] {
      var f := ranked[0];
      var rest := ranked[1..];
      FilterHead(ranked, Matching(key, lineMaps, added));
      JudgeKeepsFirst(rest, lineMaps, added, seen, key);
      JudgeKeepsFirst(rest, lineMaps, added, seen + {KeyOf(f)}, key);
      var v := Judge(ranked, lineMaps, added, seen);
      if Obstacle(f, lineMaps, added) == None && KeyOf(f) !in seen {
        assert v.kept[1..] == Judge(rest, lineMaps, added, seen + {KeyOf(f)}).kept;
        var kept := KeptFindings(v.kept);
        assert kept == [f] + KeptFindings(v.kept[1..]);
        FilterHead(kept, WithKey(key));
        assert kept[1..] == KeptFindings(v.kept[1..]);
      }
    }
  }

  /** The finding of best rank, the earliest such. */
  function EarliestBest(s: seq<Finding>): Finding
    requires s != []
  {
    if |s| == 1 then s[0]
    else
      var later := EarliestBest(s[1..]);
      if Outranks(s[0], later) then s[0] else later
  }

  lemma {:induction false} EarliestBestMeaning(s: seq<Finding>) returns (i: nat)
    requires s != []
    ensures i < |s| && s[i] == EarliestBest(s)
    ensures forall j :: 0 <= j < |s| ==> Outranks(s[i], s[j])
    ensures forall j :: 0 <= j < i ==> !Outranks(s[j], s[i])
  {
    if |s| == 1 {
      i := 0;
    } else {
      var k := EarliestBestMeaning(s[1..]);
      assert forall j :: 0 < j < |s| ==> s[j] == s[1..][j - 1];
      i := if Outranks(s[0], s[k + 1]) then 0 else k + 1;
    }
  }

  lemma {:induction false} SortedHead(s: seq<Finding>)
    requires s != []
    ensures Sort(s, Outranks) != [] && Sort(s, Outranks)[0] == EarliestBest(s)
  {
    if |s| > 1 {
      SortedHead(s[1..]);
    }
  }

  /**
   * Nothing is lost and the best represent: kept and dropped together are the report;
   * of every key with an anchorable finding exactly one is kept, the one of best rank
   * that the report lists first; of other keys none.
   */
  lemma ValidateKeepsBest(findings: seq<Finding>, lineMaps: LineMaps, added: AddedSets, key: Key)
    ensures var v := Validated(findings, lineMaps, added);
      && multiset(KeptFindings(v.kept)) + multiset(DroppedFindings(v.dropped)) == multiset(findings)
      && var candidates := Filter(findings, Matching(key, lineMaps, added));
         Filter(KeptFindings(v.kept), WithKey(key)) == if candidates == [] then [] else [EarliestBest(candidates)]
  {
    var ranked := Sort(findings, Outranks);
    JudgeIsAPartition(ranked, lineMaps, added, {});
    JudgeKeepsFirst(ranked, lineMaps, added, {}, key);
    OutranksIsAPreorder(Elements(findings));
    FilterSort(findings, Outranks, Matching(key, lineMaps, added), Elements(findings));
    var candidates := Filter(findings, Matching(key, lineMaps, added));
    if candidates != [] {
      SortedHead(candidates);
    }
  }

  /* ---- the verdict, field by field ---- */

  /** The maps give the finding's line a position and count it as added. */
  predicate CanAnchor(f: Finding, lineMaps: LineMaps, added: AddedSets) {
    f.file in lineMaps && f.line in lineMaps[f.file] && f.file in added && f.line in added[f.file]
  }

  predicate SameKey(a: Finding, b: Finding) {
    a.file == b.file && a.line == b.line && a.category == b.category
  }

  /** What the source's four reasons say of a finding. */
  predicate RightReason(d: Dropped, lineMaps: LineMaps, added: AddedSets) {
    var f := d.finding;
    match d.reason
    case UnknownFile => f.file !in lineMaps
    case OutsideDiff => f.file in lineMaps && f.line !in lineMaps[f.file]
    case UnchangedLine =>
      && f.file in lineMaps && f.line in lineMaps[f.file]
      && (f.file in added ==> f.line !in added[f.file])
    case Duplicate => CanAnchor(f, lineMaps, added)
  }

  lemma {:induction false} JudgeInFields(ranked: seq<Finding>, lineMaps: LineMaps, added: AddedSets, seen: set<Key>)
    ensures var v := Judge(ranked, lineMaps, added, seen);
      && (forall k :: k in v.kept ==>
            && k.finding in ranked && CanAnchor(k.finding, lineMaps, added)
            && k.position == lineMaps[k.finding.file][k.finding.line] && KeyOf(k.finding) !in seen)
      && (forall d :: d in v.dropped ==> RightReason(d, lineMaps, added))
      && (forall i, j :: 0 <= i < j < |v.kept| ==> !SameKey(v.kept[i].finding, v.kept[j].finding))
  {
    if ranked != [] {
      var f := ranked[0];
      assert ranked == [f] + ranked[1..];
      JudgeInFields(ranked[1..], lineMaps, added, seen);
      JudgeInFields(ranked[1..], lineMaps, added, seen + {KeyOf(f)});
    }
  }

  /** The kept findings of a ranked list are in rank order, and each anchorable one has one that it does not outrank. */
  lemma {:induction false} JudgeKeepsRanks(ranked: seq<Finding>, lineMaps: LineMaps, added: AddedSets, seen: set<Key>)
    requires Ordered(ranked, Outranks)
    ensures var kept := KeptFindings(Judge(ranked, lineMaps, added, seen).kept);
      && Ordered(kept, Outranks) && (forall f :: f in kept ==> f in ranked)
      && (forall g :: g in ranked && CanAnchor(g, lineMaps, added) && KeyOf(g) !in seen ==>
            exists f :: f in kept && SameKey(f, g) && Outranks(f, g))
  {
    hide Outranks, Ordered;
    if ranked == [] {
      NothingOrdered();
    } else {
      var f, rest := ranked[0], ranked[1..];
      HeadBelow(ranked, Outranks);
      OutranksIsAPreorder({f});
      Total({f}, Outranks, f, f);
      assert ranked == [f] + rest;
      var keeps, v := JudgeHead(ranked, lineMaps, added, seen);
      JudgeKeepsRanks(rest, lineMaps, added, if keeps then seen + {KeyOf(f)} else seen);
      hide Judge, KeptFindings, DroppedFindings;
      if keeps {
        ConsOrdered(f, KeptFindings(v.kept), Outranks);
      }
    }
  }

  lemma NothingOrdered()
    ensures Ordered([], Outranks)
  {
  }

  lemma {:induction false} KeptFindingsAt(kept: seq<Kept>)
    ensures |KeptFindings(kept)| == |kept| && forall i :: 0 <= i < |kept| ==> KeptFindings(kept)[i] == kept[i].finding
  {
    if kept != [] {
      KeptFindingsAt(kept[1..]);
    }
  }

  /**
   * What validating means, without its own notions of rank, key and obstacle. A kept finding
   * is one of the report, has a position, which it carries, and an added line. A dropped one
   * carries the reason that applies. Every anchorable finding has a kept one of its file, line
   * and category that it does not beat, by severity or by confidence among equals; there is one
   * kept per file, line and category, and none beats one listed before it.
   */
  lemma ValidateInFields(findings: seq<Finding>, lineMaps: LineMaps, added: AddedSets)
    ensures var v := Validated(findings, lineMaps, added);
      && (forall k :: k in v.kept ==>
            && k.finding in findings && CanAnchor(k.finding, lineMaps, added)
            && k.position == lineMaps[k.finding.file][k.finding.line])
      && (forall d :: d in v.dropped ==> RightReason(d, lineMaps, added))
      && (forall g :: g in findings && CanAnchor(g, lineMaps, added) ==>
            exists k :: k in v.kept && SameKey(k.finding, g) && !Beats(g, k.finding))
      && (forall i, j :: 0 <= i < j < |v.kept| ==>
            && !SameKey(v.kept[i].finding, v.kept[j].finding)
            && !Beats(v.kept[j].finding, v.kept[i].finding))
  {
    hide Sort, Judge, Beats, CanAnchor, RightReason, Outranks, SameKey;
    RankedReport(findings);
    var ranked := Sort(findings, Outranks);
    var v := Judge(ranked, lineMaps, added, {});
    JudgeInFields(ranked, lineMaps, added, {});
    JudgeKeepsRanks(ranked, lineMaps, added, {});
    BestIsKept(ranked, v.kept, lineMaps, added);
  }

  lemma RankedReport(findings: seq<Finding>)
    ensures Ordered(Sort(findings, Outranks), Outranks)
    ensures forall f :: f in Sort(findings, Outranks) <==> f in findings
  {
    hide Ordered, Outranks, Sort;
    OutranksIsAPreorder(Elements(findings));
    SortOrdered(findings, Outranks, Elements(findings));
    SameElements(Sort(findings, Outranks), findings);
  }

  lemma {:induction false} BestIsKept(ranked: seq<Finding>, all: seq<Kept>, lineMaps: LineMaps, added: AddedSets)
    requires Ordered(KeptFindings(all), Outranks)
    requires forall g :: g in ranked && CanAnchor(g, lineMaps, added) ==>
               exists f :: f in KeptFindings(all) && SameKey(f, g) && Outranks(f, g)
    ensures forall g :: g in ranked && CanAnchor(g, lineMaps, added) ==>
              exists k :: k in all && SameKey(k.finding, g) && !Beats(g, k.finding)
    ensures forall i, j :: 0 <= i < j < |all| ==> !Beats(all[j].finding, all[i].finding)
  {
    hide Beats, CanAnchor, Outranks, SameKey;
    var kept := KeptFindings(all);
    KeptFindingsAt(all);
    forall i, j | 0 <= i < j < |all| ensures !Beats(all[j].finding, all[i].finding) {
      OutranksMeaning(kept[i], kept[j]);
    }
    forall g | g in ranked && CanAnchor(g, lineMaps, added)
      ensures exists k :: k in all && SameKey(k.finding, g) && !Beats(g, k.finding)
    {
      var f :| f in KeptFindings(all) && SameKey(f, g) && Outranks(f, g);
      var k := KeptOf(all, f);
      OutranksMeaning(f, g);
    }
  }

  lemma KeptOf(all: seq<Kept>, f: Finding) returns (k: Kept)
    requires f in KeptFindings(all)
    ensures k in all && k.finding == f
  {
    KeptFindingsAt(all);
    var i :| 0 <= i < |all| && KeptFindings(all)[i] == f;
    k := all[i];
  }

  /* ---- order of the report, and a second pass ---- */

  lemma {:induction false} FilterCounts<T(!new)>(s: seq<T>, t: seq<T>, keep: T -> bool)
    requires multiset(s) == multiset(t)
    ensures multiset(Filter(s, keep)) == multiset(Filter(t, keep))
  {
    FilterMultiset(s, keep);
    FilterMultiset(t, keep);
    assert multiset(Filter(s, keep)) == multiset(Filter(t, keep)) by {
      forall x ensures multiset(Filter(s, keep))[x] == multiset(Filter(t, keep))[x] {
      }
    }
  }

  lemma {:induction false} FilterMultiset<T(!new)>(s: seq<T>, keep: T -> bool)
    ensures forall x :: multiset(Filter(s, keep))[x] == if keep(x) then multiset(s)[x] else 0
  {
    if s != [] {
      FilterMultiset(s[1..], keep);
      assert s == [s[0]] + s[1..];
    }
  }

  function ForReason(reason: Option<Reason>, lineMaps: LineMaps, added: AddedSets): Finding -> bool {
    f => Obstacle(f, lineMaps, added) == reason
  }

  function CountReason(dropped: seq<Dropped>, reason: Reason): nat {
    if dropped == [] then 0 else (if dropped[0].reason == reason then 1 else 0) + CountReason(dropped[1..], reason)
  }

  /** Drops for one obstacle are as many as the findings that meet it. */
  lemma {:induction false} DropCounts(ranked: seq<Finding>, lineMaps: LineMaps, added: AddedSets, seen: set<Key>,
                                      reason: Reason)
    requires reason != Duplicate
    ensures CountReason(Judge(ranked, lineMaps, added, seen).dropped, reason) ==
            |Filter(ranked, ForReason(Some(reason), lineMaps, added))|
  {
    if ranked != [] {
      var f, rest := ranked[0], ranked[1..];
      FilterHead(ranked, ForReason(Some(reason), lineMaps, added));
      var anchors := Obstacle(f, lineMaps, added) == None && KeyOf(f) !in seen;
      var seen' := if anchors then seen + {KeyOf(f)} else seen;
      DropCounts(rest, lineMaps, added, seen', reason);
      var dropped := Judge(ranked, lineMaps, added, seen).dropped;
      if !anchors {
        assert dropped[1..] == Judge(rest, lineMaps, added, seen').dropped;
      }
    }
  }

  /** Keys that some anchorable finding has. */
  function AnchorKeys(s: seq<Finding>, lineMaps: LineMaps, added: AddedSets): set<Key> {
    set f | f in s && Obstacle(f, lineMaps, added) == None :: KeyOf(f)
  }

  /** One finding is kept per anchorable key; the other anchorable ones are the duplicates. */
  lemma {:induction false} KeptCounts(ranked: seq<Finding>, lineMaps: LineMaps, added: AddedSets, seen: set<Key>)
    ensures var v := Judge(ranked, lineMaps, added, seen);
      && |v.kept| == |AnchorKeys(ranked, lineMaps, added) - seen|
      && CountReason(v.dropped, Duplicate) + |v.kept| == |Filter(ranked, ForReason(None, lineMaps, added))|
  {
    hide Outranks, AnchorKeys, Filter, Obstacle;
    if ranked == [] {
      NoAnchorKeys(lineMaps, added);
    } else {
      var f, rest := ranked[0], ranked[1..];
      FilterHead(ranked, ForReason(None, lineMaps, added));
      AnchorKeysHead(ranked, lineMaps, added);
      NewKeyCounts(AnchorKeys(rest, lineMaps, added), seen, KeyOf(f));
      var v := Judge(ranked, lineMaps, added, seen);
      if Obstacle(f, lineMaps, added) != None {
        KeptCounts(rest, lineMaps, added, seen);
        assert v.dropped[1..] == Judge(rest, lineMaps, added, seen).dropped;
      } else if KeyOf(f) in seen {
        KeptCounts(rest, lineMaps, added, seen);
        assert v.dropped[1..] == Judge(rest, lineMaps, added, seen).dropped;
      } else {
        KeptCounts(rest, lineMaps, added, seen + {KeyOf(f)});
      }
    }
  }

  lemma NoAnchorKeys(lineMaps: LineMaps, added: AddedSets)
    ensures AnchorKeys([], lineMaps, added) == {} && Filter([], ForReason(None, lineMaps, added)) == []
  {
  }

  lemma NewKeyCounts(keys: set<Key>, seen: set<Key>, key: Key)
    ensures key !in seen ==> |keys + {key} - seen| == |keys - (seen + {key})| + 1
    ensures key in seen ==> keys + {key} - seen == keys - seen
  {
    if key !in seen {
      assert keys + {key} - seen == (keys - (seen + {key})) + {key};
    }
  }

  lemma AnchorKeysHead(s: seq<Finding>, lineMaps: LineMaps, added: AddedSets)
    requires s != []
    ensures AnchorKeys(s, lineMaps, added) ==
            AnchorKeys(s[1..], lineMaps, added) + if Obstacle(s[0], lineMaps, added) == None then {KeyOf(s[0])} else {}
  {
    hide Obstacle;
    assert s == [s[0]] + s[1..];
  }

  lemma SameBestRank(a: seq<Finding>, b: seq<Finding>)
    requires multiset(a) == multiset(b) && a != [] && b != []
    ensures Outranks(EarliestBest(a), EarliestBest(b)) && Outranks(EarliestBest(b), EarliestBest(a))
  {
    SameElements(a, b);
    var i := EarliestBestMeaning(a);
    var j := EarliestBestMeaning(b);
    assert a[i] in b && b[j] in a;
  }

  /**
   * The order of the report decides ties only: permuting it keeps the same keys, with
   * findings of the same rank.
   */
  lemma ReportOrderOnlyBreaksTies(f1: seq<Finding>, f2: seq<Finding>, lineMaps: LineMaps, added: AddedSets, key: Key)
    requires multiset(f1) == multiset(f2)
    ensures var v1, v2 := Validated(f1, lineMaps, added), Validated(f2, lineMaps, added);
      var k1, k2 := Filter(KeptFindings(v1.kept), WithKey(key)), Filter(KeptFindings(v2.kept), WithKey(key));
      |k1| == |k2| <= 1 && (k1 != [] ==> Outranks(k1[0], k2[0]) && Outranks(k2[0], k1[0]))
  {
    hide Validated, EarliestBest, Outranks, Filter;
    ValidateKeepsBest(f1, lineMaps, added, key);
    ValidateKeepsBest(f2, lineMaps, added, key);
    var c1, c2 := Filter(f1, Matching(key, lineMaps, added)), Filter(f2, Matching(key, lineMaps, added));
    FilterCounts(f1, f2, Matching(key, lineMaps, added));
    assert |c1| == |multiset(c1)| == |multiset(c2)| == |c2|;
    if c1 != [] {
      SameBestRank(c1, c2);
    }
  }

  lemma SameFilterSize(f1: seq<Finding>, f2: seq<Finding>, keep: Finding -> bool)
    requires multiset(f1) == multiset(f2)
    ensures |Filter(f1, keep)| == |Filter(f2, keep)|
  {
    FilterCounts(f1, f2, keep);
    assert |Filter(f1, keep)| == |multiset(Filter(f1, keep))| == |multiset(Filter(f2, keep))| == |Filter(f2, keep)|;
  }

  /** It also keeps the number of kept findings, and of drops for every reason. */
  lemma ReportOrderKeepsCounts(f1: seq<Finding>, f2: seq<Finding>, lineMaps: LineMaps, added: AddedSets, reason: Reason)
    requires multiset(f1) == multiset(f2)
    ensures var v1, v2 := Validated(f1, lineMaps, added), Validated(f2, lineMaps, added);
      |v1.kept| == |v2.kept| && CountReason(v1.dropped, reason) == CountReason(v2.dropped, reason)
  {
    hide Sort, Judge, Outranks, Filter, Obstacle, CountReason;
    var r1, r2 := Sort(f1, Outranks), Sort(f2, Outranks);
    KeptCounts(r1, lineMaps, added, {});
    KeptCounts(r2, lineMaps, added, {});
    SameElements(r1, r2);
    assert AnchorKeys(r1, lineMaps, added) == AnchorKeys(r2, lineMaps, added);
    if reason == Duplicate {
      SameFilterSize(r1, r2, ForReason(None, lineMaps, added));
    } else {
      SameFilterSize(r1, r2, ForReason(Some(reason), lineMaps, added));
      DropCounts(r1, lineMaps, added, {}, reason);
      DropCounts(r2, lineMaps, added, {}, reason);
    }
  }

  /** Judging what was kept keeps it all, in order, at the same positions. */
  lemma {:induction false} JudgeAgain(ranked: seq<Finding>, lineMaps: LineMaps, added: AddedSets, seen: set<Key>)
    ensures var v := Judge(ranked, lineMaps, added, seen);
      && Judge(KeptFindings(v.kept), lineMaps, added, seen) == Verdict(v.kept, [])
      && forall f :: f in KeptFindings(v.kept) ==> f in ranked
  {
    if ranked != [] {
      var f, rest := ranked[0], ranked[1..];
      var v := Judge(ranked, lineMaps, added, seen);
      if Obstacle(f, lineMaps, added) == None && KeyOf(f) !in seen {
        JudgeAgain(rest, lineMaps, added, seen + {KeyOf(f)});
        assert v.kept[1..] == Judge(rest, lineMaps, added, seen + {KeyOf(f)}).kept;
        assert KeptFindings(v.kept)[1..] == KeptFindings(v.kept[1..]);
      } else {
        JudgeAgain(rest, lineMaps, added, seen);
      }
    }
  }

  lemma {:induction false} KeptStayRanked(ranked: seq<Finding>, lineMaps: LineMaps, added: AddedSets, seen: set<Key>)
    requires Ordered(ranked, Outranks)
    ensures Ordered(KeptFindings(Judge(ranked, lineMaps, added, seen).kept), Outranks)
  {
    if ranked != [] {
      hide Ordered, Outranks, Obstacle;
      var f, rest := ranked[0], ranked[1..];
      HeadBelow(ranked, Outranks);
      var kept := Judge(ranked, lineMaps, added, seen).kept;
      if Obstacle(f, lineMaps, added) == None && KeyOf(f) !in seen {
        KeptStayRanked(rest, lineMaps, added, seen + {KeyOf(f)});
        JudgeAgain(rest, lineMaps, added, seen + {KeyOf(f)});
        assert kept[1..] == Judge(rest, lineMaps, added, seen + {KeyOf(f)}).kept;
        ConsOrdered(f, KeptFindings(kept[1..]), Outranks);
      } else {
        KeptStayRanked(rest, lineMaps, added, seen);
      }
    }
  }

  /** Validating the kept findings again, with the same maps, changes nothing and drops nothing. */
  lemma ValidateIsIdempotent(findings: seq<Finding>, lineMaps: LineMaps, added: AddedSets)
    ensures var v := Validated(findings, lineMaps, added);
      Validated(KeptFindings(v.kept), lineMaps, added) == Verdict(v.kept, [])
  {
    var ranked := Sort(findings, Outranks);
    OutranksIsAPreorder(Elements(findings));
    SortOrdered(findings, Outranks, Elements(findings));
    KeptStayRanked(ranked, lineMaps, added, {});
    SortOfOrdered(KeptFindings(Judge(ranked, lineMaps, added, {}).kept), Outranks);
    JudgeAgain(ranked, lineMaps, added, {});
  }
}
