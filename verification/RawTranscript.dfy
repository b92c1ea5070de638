/** The sections made of a raw subtitle when no transcript was written:
    `_raw_transcript_for_summary` of `src/shiliu/pipeline.py`. */
module RawTranscript {
  import opened Wrappers
  import opened Evidence

  datatype Subtitle = Subtitle(start: real, content: string)

  /** `lines` are joined by spaces to the one paragraph of the section. */
  datatype Section = Section(start: real, lines: seq<string>)

  /** Two-minute buckets. */
  function Bucket(s: Subtitle): int {
    (s.start / 120.0).Floor
  }

  /** The subtitles that hold text, stripped. */
  function Kept(subs: seq<Subtitle>): seq<Subtitle> {
    if subs == [] then []
    else
      var last := subs[|subs| - 1];
      Kept(subs[..|subs| - 1]) + (if Strip(last.content) == [] then [] else [last.(content := Strip(last.content))])
  }

  function Contents(subs: seq<Subtitle>): seq<string> {
    seq(|subs|, i requires 0 <= i < |subs| => subs[i].content)
  }

  function Lines(sections: seq<Section>): seq<string> {
    if sections == [] then [] else sections[0].lines + Lines(sections[1..])
  }

  /** The length of the longest leading run of one bucket. */
  function RunLength(kept: seq<Subtitle>): (n: nat)
    requires kept != []
    ensures 0 < n <= |kept| && forall j :: 0 <= j < n ==> Bucket(kept[j]) == Bucket(kept[0])
    ensures n < |kept| ==> Bucket(kept[n]) != Bucket(kept[0])
  {
    if |kept| == 1 || Bucket(kept[1]) != Bucket(kept[0]) then 1 else 1 + RunLength(kept[1..])
  }

  /** One section for each maximal run of one bucket, starting when the run starts. */
  function Grouped(kept: seq<Subtitle>): seq<Section>
    decreases |kept|
  {
    if kept == [] then []
    else
      var n := RunLength(kept);
      [Section(kept[0].start, Contents(kept[..n]))] + Grouped(kept[n..])
  }

  /** The sections the program is filling: the finished ones, and the open one if it has lines. */
  function Filling(sections: seq<Section>, start: real, lines: seq<string>): seq<Section> {
    if lines == [] then sections else sections + [Section(start, lines)]
  }

  /** What one more subtitle does to the sections. */
  function Joined(sections: seq<Section>, next: Subtitle, same: bool): seq<Section> {
    if same && sections != [] then
      var n := |sections| - 1;
      sections[..n] + [sections[n].(lines := sections[n].lines + [next.content])]
    else sections + [Section(next.start, [next.content])]
  }

  predicate Continues(kept: seq<Subtitle>, next: Subtitle) {
    kept != [] && Bucket(kept[|kept| - 1]) == Bucket(next)
  }

  lemma {:induction false} GroupedUnfolds(kept: seq<Subtitle>, n: nat)
    requires kept != [] && RunLength(kept) == n
    ensures Grouped(kept) == [Section(kept[0].start, Contents(kept[..n]))] + Grouped(kept[n..])
  {
  }

  lemma {:induction false} JoinedLater(first: Section, rest: seq<Section>, next: Subtitle, same: bool)
    requires rest != []
    ensures Joined([first] + rest, next, same) == [first] + Joined(rest, next, same)
  {
  }

  /** Text can be taken in one subtitle at a time. */
  lemma {:induction false} GroupedSnoc(kept: seq<Subtitle>, next: Subtitle)
    ensures Grouped(kept + [next]) == Joined(Grouped(kept), next, Continues(kept, next))
    ensures kept != [] ==> Grouped(kept) != []
    decreases |kept|
  {
    if kept == [] {
      OneSubtitle(next);
      assert kept + [next] == [next];
    } else if RunLength(kept) < |kept| {
      var n := RunLength(kept);
      GroupedSnoc(kept[n..], next);
      GroupedUnfolds(kept, n);
      FirstRunStays(kept, next, n);
      ContinuesLater(kept, next, n);
      JoinedLater(Section(kept[0].start, Contents(kept[..n])), Grouped(kept[n..]), next, Continues(kept, next));
    } else {
      OneRunSnoc(kept, next);
    }
  }

  lemma {:induction false} ContinuesLater(kept: seq<Subtitle>, next: Subtitle, n: nat)
    requires n < |kept|
    ensures Continues(kept[n..], next) == Continues(kept, next)
  {
    assert kept[n..][|kept| - n - 1] == kept[|kept| - 1];
  }

  lemma {:induction false} FirstRunStays(kept: seq<Subtitle>, next: Subtitle, n: nat)
    requires kept != [] && n == RunLength(kept) < |kept|
    ensures Grouped(kept + [next]) == [Section(kept[0].start, Contents(kept[..n]))] + Grouped(kept[n..] + [next])
  {
    var all := kept + [next];
    EndOfRun(kept, next);
    assert all[0] == kept[0] && all[..n] == kept[..n] && all[n..] == kept[n..] + [next];
    GroupedUnfolds(all, n);
  }

  lemma {:induction false} OneSubtitle(next: Subtitle)
    ensures Grouped([next]) == [Section(next.start, [next.content])]
  {
    assert [next][..1] == [next] && [next][1..] == [] && Contents([next]) == [next.content];
    GroupedUnfolds([next], 1);
  }

  lemma {:induction false} OneRun(kept: seq<Subtitle>)
    requires kept != [] && RunLength(kept) == |kept|
    ensures Grouped(kept) == [Section(kept[0].start, Contents(kept))]
  {
    assert kept[..|kept|] == kept && kept[|kept|..] == [];
  }

  lemma {:induction false} OneRunSnoc(kept: seq<Subtitle>, next: Subtitle)
    requires kept != [] && RunLength(kept) == |kept|
    ensures Grouped(kept + [next]) == Joined(Grouped(kept), next, Continues(kept, next))
  {
    var all := kept + [next];
    OneRun(kept);
    if Continues(kept, next) {
      WholeRun(kept, next);
      OneRun(all);
      assert Contents(all) == Contents(kept) + [next.content];
    } else {
      EndOfRun(kept, next);
      GroupedUnfolds(all, |kept|);
      assert all[..|kept|] == kept && all[|kept|..] == [next];
      OneSubtitle(next);
    }
  }

  lemma {:induction false} EndOfRun(kept: seq<Subtitle>, next: Subtitle)
    requires kept != [] && (RunLength(kept) < |kept| || !Continues(kept, next))
    ensures RunLength(kept + [next]) == RunLength(kept)
  {
    var all, n := kept + [next], RunLength(kept);
    assert Bucket(all[n]) != Bucket(all[0]) by {
      if n == |kept| {
        assert kept[n - 1] == kept[|kept| - 1];
      }
    }
    RunIs(all, n);
  }

  lemma {:induction false} WholeRun(kept: seq<Subtitle>, next: Subtitle)
    requires kept != [] && RunLength(kept) == |kept| && Continues(kept, next)
    ensures RunLength(kept + [next]) == |kept| + 1
  {
    var all := kept + [next];
    assert kept[|kept| - 1] == all[|kept| - 1];
    RunIs(all, |all|);
  }

  /** The leading run is determined by where the bucket first changes. */
  lemma {:induction false} RunIs(kept: seq<Subtitle>, n: nat)
    requires 0 < n <= |kept| && (forall j :: 0 <= j < n ==> Bucket(kept[j]) == Bucket(kept[0]))
    requires n < |kept| ==> Bucket(kept[n]) != Bucket(kept[0])
    ensures RunLength(kept) == n
  {
    var m := RunLength(kept);
    if m < |kept| {
      assert Bucket(kept[m]) != Bucket(kept[0]);
    }
    if n < |kept| {
      assert Bucket(kept[n]) != Bucket(kept[0]);
    }
  }

  /** A line joins the section that is being filled. */
  lemma {:induction false} FillingJoins(sections: seq<Section>, start: real, lines: seq<string>, next: Subtitle)
    requires lines != []
    ensures Joined(Filling(sections, start, lines), next, true) == Filling(sections, start, lines + [next.content])
    ensures Joined(Filling(sections, start, lines), next, false) == Filling(Filling(sections, start, lines), next.start, [next.content])
  {
    assert Filling(sections, start, lines)[..|sections|] == sections;
  }

  lemma {:induction false} AddKeeps(kept: seq<Subtitle>, next: Subtitle, sections: seq<Section>, start: real, lines: seq<string>)
    requires Filling(sections, start, lines) == Grouped(kept) && (lines == [] <==> kept == [])
    ensures if Continues(kept, next) then Filling(sections, start, lines + [next.content]) == Grouped(kept + [next])
            else Filling(sections, start, lines) + [Section(next.start, [next.content])] == Grouped(kept + [next])
  {
    GroupedSnoc(kept, next);
    if lines != [] {
      FillingJoins(sections, start, lines, next);
    }
  }

  lemma {:induction false} GroupedNothing()
    ensures Grouped([]) == []
  {
  }

  /** `_raw_transcript_for_summary`: None stands for the error `raw_subtitle_empty`. */
  method SectionsOf(subs: seq<Subtitle>) returns (result: Option<seq<Section>>)
    ensures result == if Kept(subs) == [] then None else Some(Grouped(Kept(subs)))
  {
    hide Grouped, RunLength, Strip;
    var sections: seq<Section> := [];
    var bucket: Option<int> := None;
    var lines: seq<string> := [];
    var start := 0.0;
    ghost var kept: seq<Subtitle> := [];
    GroupedNothing();
    for i := 0 to |subs|
      invariant kept == Kept(subs[..i]) && Filling(sections, start, lines) == Grouped(kept)
      invariant bucket == if kept == [] then None else Some(Bucket(kept[|kept| - 1]))
      invariant lines == [] <==> kept == []
      invariant lines == [] ==> sections == []
    {
      assert subs[..i + 1][..i] == subs[..i];
      var content := Strip(subs[i].content);
      if content == [] {
        continue;
      }
      ghost var next := subs[i].(content := content);
      AddKeeps(kept, next, sections, start, lines);
      kept := kept + [next];
      var here := Bucket(subs[i]);
      if bucket.Some? && here != bucket.value && lines != [] {
        sections := sections + [Section(start, lines)];
        lines := [];
      }
      if bucket != Some(here) {
        bucket := Some(here);
        start := subs[i].start;
        lines := [content];
      } else {
        lines := lines + [content];
      }
    }
    assert subs[..|subs|] == subs;
    if lines != [] {
      sections := sections + [Section(start, lines)];
    }
    result := if sections == [] then None else Some(sections);
  }

  /** Nothing of the text is lost, added or moved: the lines of all sections, in order, are the
      texts of the subtitle. */
  lemma {:induction false} SectionsConserveText(kept: seq<Subtitle>)
    ensures Lines(Grouped(kept)) == Contents(kept)
    decreases |kept|
  {
    hide RunLength, Bucket;
    if kept != [] {
      var n := RunLength(kept);
      SectionsConserveText(kept[n..]);
      GroupedUnfolds(kept, n);
      LinesOfFirst(Section(kept[0].start, Contents(kept[..n])), Grouped(kept[n..]));
      assert Contents(kept[..n]) + Contents(kept[n..]) == Contents(kept);
    }
  }

  lemma {:induction false} LinesOfFirst(first: Section, rest: seq<Section>)
    ensures Lines([first] + rest) == first.lines + Lines(rest)
  {
    assert ([first] + rest)[1..] == rest;
  }
}
