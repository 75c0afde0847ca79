/**
 * What a patch says about two files, and the proof that the line map anchors every
 * new-file line to the patch line that carries its text.
 */
module PatchMeaning {
  import opened Text
  import opened Hunks
  import DiffLines

  /** Lines that precede a range, by the POSIX convention: an empty range names the line before it. */
  function Preceding(start: nat, count: nat): int {
    if count == 0 then start else start - 1
  }

  function OldFrom(h: Hunk): int { Preceding(h.oldStart, |OldSide(h.body)|) }
  function OldTo(h: Hunk): int { OldFrom(h) + |OldSide(h.body)| }
  function NewFrom(h: Hunk): int { Preceding(h.newStart, |NewSide(h.body)|) }
  function NewTo(h: Hunk): int { NewFrom(h) + |NewSide(h.body)| }

  /** The files agree up to the hunk, and each side of the hunk is what that file has there. */
  predicate HunkFits(before: seq<string>, after: seq<string>, h: Hunk, oc: nat, nc: nat)
    requires oc <= |before| && nc <= |after|
  {
    && oc <= OldFrom(h) && OldTo(h) <= |before| && nc <= NewFrom(h) && NewTo(h) <= |after|
    && before[oc..OldFrom(h)] == after[nc..NewFrom(h)]
    && before[OldFrom(h)..OldTo(h)] == OldSide(h.body)
    && after[NewFrom(h)..NewTo(h)] == NewSide(h.body)
  }

  /** The hunks, in order, turn `before` from line `oc` on into `after` from line `nc` on. */
  predicate Transforms(before: seq<string>, after: seq<string>, hs: seq<Hunk>, oc: nat, nc: nat)
    requires oc <= |before| && nc <= |after|
    decreases hs
  {
    if hs == [] then before[oc..] == after[nc..]
    else HunkFits(before, after, hs[0], oc, nc) && Transforms(before, after, hs[1..], OldTo(hs[0]), NewTo(hs[0]))
  }

  /** Patch application: copy up to each hunk, write its new side, skip its old side. */
  function Apply(before: seq<string>, hs: seq<Hunk>, oc: nat): Option<seq<string>>
    requires oc <= |before|
    decreases hs
  {
    if hs == [] then Some(before[oc..])
    else if oc <= OldFrom(hs[0]) && OldTo(hs[0]) <= |before| then
      match Apply(before, hs[1..], OldTo(hs[0]))
      case None => None
      case Some(rest) => Some(before[oc..OldFrom(hs[0])] + NewSide(hs[0].body) + rest)
    else None
  }

  /** The relation is patch application: the new file is what applying the hunks gives. */
  lemma {:induction false} TransformsIsApplication(before: seq<string>, after: seq<string>, hs: seq<Hunk>, oc: nat,
                                                   nc: nat)
    requires oc <= |before| && nc <= |after| && Transforms(before, after, hs, oc, nc)
    ensures Apply(before, hs, oc) == Some(after[nc..])
    decreases hs
  {
    if hs != [] {
      TransformsIsApplication(before, after, hs[1..], OldTo(hs[0]), NewTo(hs[0]));
      assert after[nc..] == after[nc..NewFrom(hs[0])] + after[NewFrom(hs[0])..NewTo(hs[0])] + after[NewTo(hs[0])..];
    }
  }

  /* ---- the places of a hunk list that fits ---- */

  function Prefix(added: bool): string {
    if added then "+" else " "
  }

  /** `lines[0]` stands at diff position `from`. */
  ghost predicate PlaceReads(lines: seq<string>, from: nat, p: Place) {
    from <= p.position < from + |lines| && lines[p.position - from] == Prefix(p.added) + p.text
  }

  /** Place `i` of a body that starts at `number` carries number, text and position of its line. */
  ghost predicate BodyPlaceFits(p: Place, number: nat, text: string, lines: seq<string>, position: nat) {
    p.number == number && p.text == text && PlaceReads(lines, position, p)
  }

  lemma PlaceReadsLater(p: Place, number: nat, text: string, line: string, lines: seq<string>, position: nat)
    requires BodyPlaceFits(p, number, text, lines, position + 1)
    ensures BodyPlaceFits(p, number, text, [line] + lines, position)
  {
  }

  lemma LinePlaceFits(b: BodyLine, number: nat, position: nat, lines: seq<string>)
    ensures var here := LinePlace(b, number, position);
      && |here| == |NewLine(b)| <= 1
      && (here != [] ==> BodyPlaceFits(here[0], number, NewLine(b)[0], [PrintLine(b)] + lines, position))
  {
  }

  lemma {:induction false} BodyPlacesRead(body: seq<BodyLine>, number: nat, position: nat)
    ensures var ps := BodyPlaces(body, number, position);
      && |ps| == |NewSide(body)|
      && forall i :: 0 <= i < |ps| ==> BodyPlaceFits(ps[i], number + i, NewSide(body)[i], PrintBody(body), position)
  {
    hide BodyPlaceFits, LinePlace, NewLine, PrintLine;
    if body != [] {
      var here := LinePlace(body[0], number, position);
      var rest := BodyPlaces(body[1..], number + |here|, position + 1);
      LinePlaceFits(body[0], number, position, PrintBody(body[1..]));
      BodyPlacesRead(body[1..], number + |here|, position + 1);
      var ps := BodyPlaces(body, number, position);
      forall i | 0 <= i < |ps|
        ensures BodyPlaceFits(ps[i], number + i, NewSide(body)[i], PrintBody(body), position)
      {
        if i >= |here| {
          PlaceReadsLater(rest[i - |here|], number + i, NewSide(body[1..])[i - |here|], PrintLine(body[0]),
                          PrintBody(body[1..]), position);
        }
      }
    }
  }

  /** Line numbers grow along the list, from above `low`, and each place carries its new-file line. */
  ghost predicate PlacesFit(after: seq<string>, lines: seq<string>, from: nat, low: nat, ps: seq<Place>) {
    && (forall i :: 0 <= i < |ps| ==>
          && low < ps[i].number <= |after| && ps[i].text == after[ps[i].number - 1]
          && PlaceReads(lines, from, ps[i]))
    && (forall i, j :: 0 <= i < j < |ps| ==> ps[i].number < ps[j].number)
  }

  lemma HunkPlacesFit(before: seq<string>, after: seq<string>, h: Hunk, oc: nat, nc: nat, position: nat)
    requires oc <= |before| && nc <= |after| && HunkFits(before, after, h, oc, nc)
    ensures var ps := BodyPlaces(h.body, h.newStart, position);
      PlacesFit(after, PrintBody(h.body), position, nc, ps) && forall i :: 0 <= i < |ps| ==> ps[i].number <= NewTo(h)
  {
    BodyPlacesRead(h.body, h.newStart, position);
    var ps := BodyPlaces(h.body, h.newStart, position);
    forall i | 0 <= i < |ps| ensures ps[i].text == after[ps[i].number - 1] {
      assert BodyPlaceFits(ps[i], h.newStart + i, NewSide(h.body)[i], PrintBody(h.body), position);
      assert NewSide(h.body)[i] == after[NewFrom(h) + i];
    }
  }

  lemma PlacesFitJoin(after: seq<string>, header: string, body: seq<string>, rest: seq<string>, from: nat, low: nat,
                      mid: nat, ps: seq<Place>, qs: seq<Place>)
    requires low <= mid
    requires PlacesFit(after, body, from + 1, low, ps) && forall i :: 0 <= i < |ps| ==> ps[i].number <= mid
    requires PlacesFit(after, rest, from + 1 + |body|, mid, qs)
    ensures PlacesFit(after, [header] + body + rest, from, low, ps + qs)
  {
    hide PlaceReads;
    var lines := [header] + body + rest;
    forall i | 0 <= i < |ps| ensures PlaceReads(lines, from, ps[i]) {
      PlaceReadsWithin([header], body, rest, from, ps[i]);
    }
    forall i | 0 <= i < |qs| ensures PlaceReads(lines, from, qs[i]) {
      PlaceReadsWithin([header] + body, rest, [], from, qs[i]);
      assert [header] + body + rest + [] == lines;
    }
  }

  lemma PlaceReadsWithin(a: seq<string>, lines: seq<string>, b: seq<string>, from: nat, p: Place)
    requires PlaceReads(lines, from + |a|, p)
    ensures PlaceReads(a + lines + b, from, p)
  {
  }

  lemma {:induction false} FittingPlaces(before: seq<string>, after: seq<string>, hs: seq<Hunk>, oc: nat, nc: nat,
                                         position: nat)
    requires oc <= |before| && nc <= |after| && Transforms(before, after, hs, oc, nc)
    ensures PlacesFit(after, PrintHunks(hs), position, nc, Places(hs, position))
    decreases hs
  {
    hide PlacesFit;
    if hs == [] {
      NoPlacesFit(after, position, nc);
    } else {
      var h := hs[0];
      HunkPlacesFit(before, after, h, oc, nc, position + 1);
      FittingPlaces(before, after, hs[1..], OldTo(h), NewTo(h), position + 1 + |h.body|);
      PlacesFitJoin(after, PrintHeader(h), PrintBody(h.body), PrintHunks(hs[1..]), position, nc, NewTo(h),
                    BodyPlaces(h.body, h.newStart, position + 1), Places(hs[1..], position + 1 + |h.body|));
    }
  }

  lemma NoPlacesFit(after: seq<string>, from: nat, low: nat)
    ensures PlacesFit(after, [], from, low, [])
  {
  }

  /** With growing numbers no place overrides another. */
  lemma {:induction false} MapOfGrowing(ps: seq<Place>)
    requires forall i, j :: 0 <= i < j < |ps| ==> ps[i].number < ps[j].number
    ensures forall i :: 0 <= i < |ps| ==> ps[i].number in MapOf(ps) && MapOf(ps)[ps[i].number] == ps[i].position
    ensures forall n :: n in MapOf(ps) ==> exists i :: 0 <= i < |ps| && ps[i].number == n
  {
    if ps != [] {
      var front, last := ps[..|ps| - 1], ps[|ps| - 1];
      MapOfGrowing(front);
      forall n | n in MapOf(ps) ensures exists i :: 0 <= i < |ps| && ps[i].number == n {
        if n != last.number {
          assert n in MapOf(front);
          var i :| 0 <= i < |front| && front[i].number == n;
          assert ps[i] == front[i];
        }
      }
      forall i | 0 <= i < |ps| ensures ps[i].number in MapOf(ps) && MapOf(ps)[ps[i].number] == ps[i].position {
        if i < |front| { assert front[i] == ps[i]; }
      }
    }
  }

  /* ---- which old line each new line comes from ---- */

  function Run(from: nat, len: nat): seq<Option<nat>> {
    seq(len, i requires 0 <= i => Some(from + i))
  }

  function LineOrigin(b: BodyLine, o: nat): seq<Option<nat>> {
    match b
    case Keep(_) => [Some(o)]
    case Insert(_) => [None]
    case _ => []
  }

  function BodyOrigins(body: seq<BodyLine>, o: nat): seq<Option<nat>> {
    if body == [] then [] else LineOrigin(body[0], o) + BodyOrigins(body[1..], o + |OldLine(body[0])|)
  }

  /** For each line of `after` from `nc` on, the line of `before` the hunks align it with, if any. */
  function Origins(before: seq<string>, after: seq<string>, hs: seq<Hunk>, oc: nat, nc: nat): seq<Option<nat>>
    requires oc <= |before| && nc <= |after| && Transforms(before, after, hs, oc, nc)
    decreases hs
  {
    if hs == [] then Run(oc, |after| - nc)
    else
      Run(oc, NewFrom(hs[0]) - nc) + BodyOrigins(hs[0].body, OldFrom(hs[0])) +
      Origins(before, after, hs[1..], OldTo(hs[0]), NewTo(hs[0]))
  }

  /** `origins` pairs lines `nc, nc + 1, ...` of `after` with equal lines of `before[lo..hi]`, in order. */
  ghost predicate Pairs(before: seq<string>, after: seq<string>, lo: nat, hi: nat, nc: nat, origins: seq<Option<nat>>) {
    && lo <= hi <= |before| && nc + |origins| <= |after|
    && (forall i :: 0 <= i < |origins| && origins[i].Some? ==>
          lo <= origins[i].value < hi && before[origins[i].value] == after[nc + i])
    && (forall i, j :: 0 <= i < j < |origins| && origins[i].Some? && origins[j].Some? ==>
          origins[i].value < origins[j].value)
  }

  lemma PairsJoin(before: seq<string>, after: seq<string>, lo: nat, mid: nat, hi: nat, nc: nat, a: seq<Option<nat>>,
                  b: seq<Option<nat>>)
    requires Pairs(before, after, lo, mid, nc, a) && Pairs(before, after, mid, hi, nc + |a|, b)
    ensures Pairs(before, after, lo, hi, nc, a + b)
  {
  }

  lemma RunPairs(before: seq<string>, after: seq<string>, lo: nat, hi: nat, nc: nat, len: nat)
    requires lo <= hi <= |before| && nc + len <= |after| && before[lo..hi] == after[nc..nc + len]
    ensures Pairs(before, after, lo, hi, nc, Run(lo, len))
  {
    forall i | 0 <= i < |before[lo..hi]| ensures before[lo..hi][i] == after[nc + i] {
    }
  }

  lemma {:induction false} BodyPairs(before: seq<string>, after: seq<string>, body: seq<BodyLine>, o: nat, n: nat)
    requires o + |OldSide(body)| <= |before| && n + |NewSide(body)| <= |after|
    requires before[o..o + |OldSide(body)|] == OldSide(body) && after[n..n + |NewSide(body)|] == NewSide(body)
    ensures |BodyOrigins(body, o)| == |NewSide(body)|
    ensures Pairs(before, after, o, o + |OldSide(body)|, n, BodyOrigins(body, o))
    decreases body
  {
    hide Pairs, OldLine, NewLine, LineOrigin;
    if body == [] {
      NoPairs(before, after, o, n);
    } else {
      var b, rest := body[0], body[1..];
      var o', n' := o + |OldLine(b)|, n + |NewLine(b)|;
      assert OldSide(body) == OldLine(b) + OldSide(rest) && NewSide(body) == NewLine(b) + NewSide(rest);
      SliceRest(before, o, OldLine(b), OldSide(rest));
      SliceRest(after, n, NewLine(b), NewSide(rest));
      LinePairs(before, after, b, o, n);
      BodyPairs(before, after, rest, o', n');
      PairsJoin(before, after, o, o', o + |OldSide(body)|, n, LineOrigin(b, o), BodyOrigins(rest, o'));
    }
  }

  lemma NoPairs(before: seq<string>, after: seq<string>, o: nat, n: nat)
    requires o <= |before| && n <= |after|
    ensures Pairs(before, after, o, o, n, [])
  {
  }

  lemma SliceRest<T>(s: seq<T>, at: nat, a: seq<T>, b: seq<T>)
    requires at + |a| + |b| <= |s| && s[at..at + |a| + |b|] == a + b
    ensures s[at..at + |a|] == a && s[at + |a|..at + |a| + |b|] == b
  {
    assert s[at..at + |a|] == s[at..at + |a| + |b|][..|a|];
    assert s[at + |a|..at + |a| + |b|] == s[at..at + |a| + |b|][|a|..];
  }

  lemma LinePairs(before: seq<string>, after: seq<string>, b: BodyLine, o: nat, n: nat)
    requires o + |OldLine(b)| <= |before| && n + |NewLine(b)| <= |after|
    requires before[o..o + |OldLine(b)|] == OldLine(b) && after[n..n + |NewLine(b)|] == NewLine(b)
    ensures |LineOrigin(b, o)| == |NewLine(b)| && Pairs(before, after, o, o + |OldLine(b)|, n, LineOrigin(b, o))
  {
    if b.Keep? {
      assert before[o..o + 1][0] == before[o] && after[n..n + 1][0] == after[n];
    }
  }

  /** The alignment covers the new file, pairs equal lines, and keeps their order. */
  lemma {:induction false} OriginsPair(before: seq<string>, after: seq<string>, hs: seq<Hunk>, oc: nat, nc: nat)
    requires oc <= |before| && nc <= |after| && Transforms(before, after, hs, oc, nc)
    ensures |Origins(before, after, hs, oc, nc)| == |after| - nc
    ensures Pairs(before, after, oc, |before|, nc, Origins(before, after, hs, oc, nc))
    decreases hs
  {
    hide Pairs, OldSide, NewSide, BodyOrigins;
    if hs == [] {
      assert before[oc..|before|] == before[oc..] && after[nc..nc + (|after| - nc)] == after[nc..];
      RunPairs(before, after, oc, |before|, nc, |after| - nc);
    } else {
      var h := hs[0];
      var gap, inside := Run(oc, NewFrom(h) - nc), BodyOrigins(h.body, OldFrom(h));
      RunPairs(before, after, oc, OldFrom(h), nc, NewFrom(h) - nc);
      BodyPairs(before, after, h.body, OldFrom(h), NewFrom(h));
      PairsJoin(before, after, oc, OldFrom(h), OldTo(h), nc, gap, inside);
      OriginsPair(before, after, hs[1..], OldTo(h), NewTo(h));
      PairsJoin(before, after, oc, OldTo(h), |before|, nc, gap + inside,
                Origins(before, after, hs[1..], OldTo(h), NewTo(h)));
    }
  }

  /* ---- added lines are the unaligned ones ---- */

  ghost predicate AddedPlace(ps: seq<Place>, n: int) {
    exists i :: 0 <= i < |ps| && ps[i].number == n && ps[i].added
  }

  /** Of the lines after `nc` that `origins` describes, exactly those without origin have an added place. */
  ghost predicate FlagsAgree(nc: nat, origins: seq<Option<nat>>, ps: seq<Place>) {
    && (forall n :: nc < n <= nc + |origins| ==> (origins[n - 1 - nc].None? <==> AddedPlace(ps, n)))
    && (forall i :: 0 <= i < |ps| ==> nc < ps[i].number <= nc + |origins|)
  }

  lemma FlagsJoin(nc: nat, a: seq<Option<nat>>, b: seq<Option<nat>>, ps: seq<Place>, qs: seq<Place>)
    requires FlagsAgree(nc, a, ps) && FlagsAgree(nc + |a|, b, qs)
    ensures FlagsAgree(nc, a + b, ps + qs)
  {
    forall n | nc < n <= nc + |a + b| ensures (a + b)[n - 1 - nc].None? <==> AddedPlace(ps + qs, n) {
      if AddedPlace(ps, n) {
        var i :| 0 <= i < |ps| && ps[i].number == n && ps[i].added;
        assert (ps + qs)[i] == ps[i];
      }
      if AddedPlace(qs, n) {
        var i :| 0 <= i < |qs| && qs[i].number == n && qs[i].added;
        assert (ps + qs)[|ps| + i] == qs[i];
      }
    }
  }

  lemma RunFlags(nc: nat, from: nat, len: nat)
    ensures FlagsAgree(nc, Run(from, len), [])
  {
  }

  lemma NoFlags(nc: nat)
    ensures FlagsAgree(nc, [], [])
  {
  }

  lemma LineFlags(b: BodyLine, o: nat, n: nat, position: nat)
    ensures FlagsAgree(n, LineOrigin(b, o), LinePlace(b, n + 1, position))
    ensures |LineOrigin(b, o)| == |LinePlace(b, n + 1, position)|
  {
    if b.Insert? {
      assert LinePlace(b, n + 1, position)[0].added;
    }
  }

  lemma {:induction false} BodyFlags(body: seq<BodyLine>, o: nat, n: nat, position: nat)
    ensures FlagsAgree(n, BodyOrigins(body, o), BodyPlaces(body, n + 1, position))
    decreases body
  {
    hide FlagsAgree, LineOrigin, LinePlace, OldLine;
    if body == [] {
      NoFlags(n);
    } else {
      var b := body[0];
      LineFlags(b, o, n, position);
      var len := |LineOrigin(b, o)|;
      BodyFlags(body[1..], o + |OldLine(b)|, n + len, position + 1);
      FlagsJoin(n, LineOrigin(b, o), BodyOrigins(body[1..], o + |OldLine(b)|),
                LinePlace(b, n + 1, position), BodyPlaces(body[1..], n + 1 + len, position + 1));
    }
  }

  lemma {:induction false} OriginFlags(before: seq<string>, after: seq<string>, hs: seq<Hunk>, oc: nat, nc: nat,
                                       position: nat)
    requires oc <= |before| && nc <= |after| && Transforms(before, after, hs, oc, nc)
    ensures FlagsAgree(nc, Origins(before, after, hs, oc, nc), Places(hs, position))
    decreases hs
  {
    hide FlagsAgree, OldSide, BodyOrigins;
    if hs == [] {
      RunFlags(nc, oc, |after| - nc);
    } else {
      var h := hs[0];
      var gap, inside, next := Run(oc, NewFrom(h) - nc), BodyOrigins(h.body, OldFrom(h)), position + 1 + |h.body|;
      RunFlags(nc, oc, |gap|);
      HunkFlags(before, after, h, oc, nc, position + 1);
      FlagsJoin(nc, gap, inside, [], BodyPlaces(h.body, h.newStart, position + 1));
      assert [] + BodyPlaces(h.body, h.newStart, position + 1) == BodyPlaces(h.body, h.newStart, position + 1);
      OriginFlags(before, after, hs[1..], OldTo(h), NewTo(h), next);
      FlagsJoin(nc, gap + inside, Origins(before, after, hs[1..], OldTo(h), NewTo(h)),
                BodyPlaces(h.body, h.newStart, position + 1), Places(hs[1..], next));
    }
  }

  lemma HunkFlags(before: seq<string>, after: seq<string>, h: Hunk, oc: nat, nc: nat, position: nat)
    requires oc <= |before| && nc <= |after| && HunkFits(before, after, h, oc, nc)
    ensures |BodyOrigins(h.body, OldFrom(h))| == |NewSide(h.body)|
    ensures FlagsAgree(NewFrom(h), BodyOrigins(h.body, OldFrom(h)), BodyPlaces(h.body, h.newStart, position))
  {
    hide FlagsAgree, Pairs, BodyPlaceFits, BodyPlaces, BodyOrigins, OldSide, NewSide;
    BodyPairs(before, after, h.body, OldFrom(h), NewFrom(h));
    BodyFlags(h.body, OldFrom(h), NewFrom(h), position);
    if |NewSide(h.body)| == 0 {
      BodyPlacesRead(h.body, h.newStart, position);
      BodyPlacesRead(h.body, NewFrom(h) + 1, position);
      assert BodyPlaces(h.body, h.newStart, position) == BodyPlaces(h.body, NewFrom(h) + 1, position);
    }
  }

  /* ---- anchoring ---- */

  /** Line `n` of the new file is on the new side of the hunk. */
  predicate CoveredBy(h: Hunk, n: int) {
    h.newStart <= n < h.newStart + |NewSide(h.body)|
  }

  ghost predicate Covered(hs: seq<Hunk>, n: int) {
    exists h :: h in hs && CoveredBy(h, n)
  }

  ghost predicate HasPlace(ps: seq<Place>, n: int) {
    exists p :: p in ps && p.number == n
  }

  lemma BodyCovers(h: Hunk, position: nat, n: int)
    ensures CoveredBy(h, n) <==> HasPlace(BodyPlaces(h.body, h.newStart, position), n)
  {
    hide BodyPlaces, NewSide;
    var ps := BodyPlaces(h.body, h.newStart, position);
    BodyPlacesRead(h.body, h.newStart, position);
    if CoveredBy(h, n) {
      assert BodyPlaceFits(ps[n - h.newStart], n, NewSide(h.body)[n - h.newStart], PrintBody(h.body), position);
      assert ps[n - h.newStart] in ps;
    }
    if p :| p in ps && p.number == n {
      var i :| 0 <= i < |ps| && ps[i] == p;
      assert BodyPlaceFits(ps[i], h.newStart + i, NewSide(h.body)[i], PrintBody(h.body), position);
    }
  }

  lemma {:induction false} PlacesCover(hs: seq<Hunk>, position: nat, n: int)
    ensures Covered(hs, n) <==> HasPlace(Places(hs, position), n)
  {
    if hs != [] {
      hide CoveredBy, BodyPlaces;
      var next := position + 1 + |hs[0].body|;
      BodyCovers(hs[0], position + 1, n);
      PlacesCover(hs[1..], next, n);
      assert Covered(hs, n) <==> CoveredBy(hs[0], n) || Covered(hs[1..], n) by {
        assert hs == [hs[0]] + hs[1..];
      }
    }
  }

  /** The patch of a change, and what is read from it. */
  ghost predicate IsPatchOf(patch: string, before: seq<string>, after: seq<string>, preamble: seq<string>,
                            hs: seq<Hunk>, trailing: nat) {
    && IsPreamble(preamble) && Printable(hs) && Transforms(before, after, hs, 0, 0)
    && patch == PrintPatch(preamble, hs, trailing)
  }

  /** The patch line at diff position `p`, counted from the first hunk header. */
  function LineAtPosition(patch: string, p: int): Option<string> {
    var lines := DiffLines.PatchLines(patch);
    var i := DiffLines.FirstHeader(DiffLines.Kinds(lines)) + p;
    if 0 <= i < |lines| then Some(lines[i]) else None
  }

  /** The map and the set that the loop returns (`BuildLineMap` ensures exactly this of them). */
  ghost predicate IsLineMapOf(patch: string, lineMap: map<int, int>, added: set<int>) {
    var ks := DiffLines.Kinds(DiffLines.PatchLines(patch));
    DiffLines.Anchors(ks, |ks|, lineMap, added)
  }

  lemma LineMapOfPrinted(preamble: seq<string>, hs: seq<Hunk>, trailing: nat, lineMap: map<int, int>, added: set<int>)
    requires IsPreamble(preamble) && Printable(hs) && IsLineMapOf(PrintPatch(preamble, hs, trailing), lineMap, added)
    ensures lineMap == MapOf(Places(hs, 0)) && added == AddedOf(Places(hs, 0))
  {
    hide DiffLines.Anchors;
    var ks := DiffLines.Kinds(DiffLines.PatchLines(PrintPatch(preamble, hs, trailing)));
    DiffLines.ScanMeaning(ks, |ks|);
    assert ks[..|ks|] == ks;
    var s := DiffLines.ScanAll(ks);
    DiffLines.AnchorsAreUnique(ks, lineMap, added, s.lineMap, s.added);
    ParserAgreesWithPrinter(preamble, hs, trailing);
  }

  /** Position `p` is line `p` of the printed hunks, the preamble not counted. */
  lemma PositionsCountFromTheFirstHeader(preamble: seq<string>, hs: seq<Hunk>, trailing: nat, p: nat)
    requires IsPreamble(preamble) && Printable(hs) && p < |PrintHunks(hs)|
    ensures LineAtPosition(PrintPatch(preamble, hs, trailing), p) == Some(PrintHunks(hs)[p])
  {
    hide DiffLines.KindOf, DiffLines.FirstHeader, PrintHeader, Printable, OneLine;
    var lines := preamble + PrintHunks(hs);
    var ks := DiffLines.Kinds(lines);
    PrintedPatchLines(preamble, hs, trailing);
    hide PrintPatch;
    HeaderReadsBack(hs[0]);
    assert lines[|preamble|] == PrintHeader(hs[0]);
    assert forall i :: 0 <= i < |preamble| ==> lines[i] == preamble[i];
    assert DiffLines.FirstHeader(ks) == |preamble|;
  }

  lemma GrowingPlace(after: seq<string>, lines: seq<string>, ps: seq<Place>, p: Place)
    requires PlacesFit(after, lines, 0, 0, ps) && p in ps
    ensures 1 <= p.number <= |after| && p.text == after[p.number - 1] && PlaceReads(lines, 0, p)
    ensures p.number in MapOf(ps) && MapOf(ps)[p.number] == p.position
    ensures p.number in AddedOf(ps) <==> p.added
  {
    MapOfGrowing(ps);
  }

  /**
   * The line map of a patch that turns `before` into `after`: a mapped line is the text
   * found at its position, under `+` when added and under a space when not; the mapped
   * lines are those the hunks show; the added lines are those with no origin in `before`.
   */
  lemma Anchoring(patch: string, before: seq<string>, after: seq<string>, preamble: seq<string>, hs: seq<Hunk>,
                  trailing: nat, lineMap: map<int, int>, added: set<int>, n: int)
    requires IsPatchOf(patch, before, after, preamble, hs, trailing) && IsLineMapOf(patch, lineMap, added)
    ensures n in lineMap ==>
              1 <= n <= |after| && LineAtPosition(patch, lineMap[n]) == Some(Prefix(n in added) + after[n - 1])
    ensures n in lineMap <==> Covered(hs, n)
    ensures |Origins(before, after, hs, 0, 0)| == |after|
    ensures n in added <==> 1 <= n <= |after| && Origins(before, after, hs, 0, 0)[n - 1].None?
  {
    hide Transforms, Covered, PlacesFit, DiffLines.Anchors, Places, Origins, LineAtPosition;
    var ps := Places(hs, 0);
    LineMapOfPrinted(preamble, hs, trailing, lineMap, added);
    FittingPlaces(before, after, hs, 0, 0, 0);
    PlacesCover(hs, 0, n);
    OriginsPair(before, after, hs, 0, 0);
    OriginFlags(before, after, hs, 0, 0, 0);
    MappedIffPlaced(after, PrintHunks(hs), ps, n);
    if p :| p in ps && p.number == n {
      GrowingPlace(after, PrintHunks(hs), ps, p);
      PositionsCountFromTheFirstHeader(preamble, hs, trailing, p.position);
    }
    AddedIffPlaced(ps, n);
  }

  lemma MappedIffPlaced(after: seq<string>, lines: seq<string>, ps: seq<Place>, n: int)
    requires PlacesFit(after, lines, 0, 0, ps)
    ensures n in MapOf(ps) <==> HasPlace(ps, n)
  {
    MapOfGrowing(ps);
    if n in MapOf(ps) {
      var i :| 0 <= i < |ps| && ps[i].number == n;
      assert ps[i] in ps;
    }
  }

  lemma AddedIffPlaced(ps: seq<Place>, n: int)
    ensures n in AddedOf(ps) <==> AddedPlace(ps, n)
  {
  }
}
