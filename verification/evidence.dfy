/** The evidence view that the prompt builders (LLMs/utils.py) show the
    oracle: the coarse memory merged with the fine entire-runs into one
    listing ordered by start time, each fine entry followed by its divided
    run, and inside that each super-fine period by its own stamps. The
    English wording of every prompt is left out; a prompt is the structured
    record of what it lists. */
module Evidence {
  import opened Timeline

  // ---------------------------------------------------------------- keys

  predicate NonEmptyRuns(runs: seq<seq<Entry>>) {
    forall i :: 0 <= i < |runs| ==> |runs[i]| > 0
  }

  /** The period a run covers: from its first entry's start to its last
      entry's end. */
  function RunKey(run: seq<Entry>): Period
    requires |run| > 0
  {
    Period(run[0].period.start, run[|run| - 1].period.end)
  }

  function Keys(runs: seq<seq<Entry>>): seq<Period>
    requires NonEmptyRuns(runs)
  {
    seq(|runs|, i requires 0 <= i < |runs| => RunKey(runs[i]))
  }

  /** The key of every run, in order. */
  method RunKeys(runs: seq<seq<Entry>>) returns (keys: seq<Period>)
    requires NonEmptyRuns(runs)
    ensures |keys| == |runs|
    ensures forall i :: 0 <= i < |runs| ==>
      keys[i] == Period(runs[i][0].period.start, runs[i][|runs[i]| - 1].period.end)
    ensures keys == Keys(runs)
  {
    keys := [];
    for i := 0 to |runs|
      invariant |keys| == i
      invariant forall k :: 0 <= k < i ==> keys[k] == RunKey(runs[k])
    {
      var run := runs[i];
      keys := keys + [Period(run[0].period.start, run[|run| - 1].period.end)];
    }
  }

  // ------------------------------------------------------------- merging

  /** The coarse entries whose period is not the key of any fine run, in
      their order. */
  function Unrefined(es: seq<Entry>, keys: seq<Period>): seq<Entry> {
    if es == [] then []
    else Unrefined(es[..|es| - 1], keys)
         + (if es[|es| - 1].period !in keys then [es[|es| - 1]] else [])
  }

  /** A coarse entry is dropped exactly when a fine key equals its period;
      every other one is kept as often as it occurs. */
  lemma {:induction false} UnrefinedCounts(es: seq<Entry>, keys: seq<Period>)
    ensures forall e ::
      multiset(Unrefined(es, keys))[e] == (if e.period in keys then 0 else multiset(es)[e])
    decreases |es|
  {
    if es != [] {
      UnrefinedCounts(es[..|es| - 1], keys);
      assert es == es[..|es| - 1] + [es[|es| - 1]];
    }
  }

  method KeepUnrefined(coarse: seq<Entry>, keys: seq<Period>) returns (saved: seq<Entry>)
    ensures saved == Unrefined(coarse, keys)
  {
    saved := [];
    for i := 0 to |coarse|
      invariant saved == Unrefined(coarse[..i], keys)
    {
      if coarse[i].period !in keys {
        saved := saved + [coarse[i]];
      }
      assert coarse[..i + 1][..i] == coarse[..i];
    }
    assert coarse[..|coarse|] == coarse;
  }

  /** All runs one after another. */
  function Flatten(runs: seq<seq<Entry>>): seq<Entry> {
    if runs == [] then [] else Flatten(runs[..|runs| - 1]) + runs[|runs| - 1]
  }

  // ------------------------------------------------------------- sorting

  predicate Ascending(es: seq<Entry>) {
    forall i, j :: 0 <= i < j < |es| ==> es[i].period.start <= es[j].period.start
  }

  /** Place `x` after every entry that starts no later than it. */
  function InsertByStart(x: Entry, s: seq<Entry>): seq<Entry>
    decreases |s|
  {
    if s == [] || s[|s| - 1].period.start <= x.period.start then s + [x]
    else InsertByStart(x, s[..|s| - 1]) + [s[|s| - 1]]
  }

  /** Python's stable `sorted(xs, key=start)`, as an insertion sort. */
  function SortByStart(xs: seq<Entry>): seq<Entry> {
    if xs == [] then [] else InsertByStart(xs[|xs| - 1], SortByStart(xs[..|xs| - 1]))
  }

  /** Inserting adds exactly `x`. */
  lemma {:induction false} InsertByStartAdds(x: Entry, s: seq<Entry>)
    ensures multiset(InsertByStart(x, s)) == multiset(s) + multiset{x}
    decreases |s|
  {
    if s != [] && s[|s| - 1].period.start > x.period.start {
      InsertByStartAdds(x, s[..|s| - 1]);
      assert s == s[..|s| - 1] + [s[|s| - 1]];
    }
  }

  /** Inserting into an ascending listing keeps it ascending. */
  lemma {:induction false} InsertByStartKeeps(x: Entry, s: seq<Entry>)
    requires Ascending(s)
    ensures Ascending(InsertByStart(x, s))
    decreases |s|
  {
    if s != [] && s[|s| - 1].period.start > x.period.start {
      var init := s[..|s| - 1];
      var last := s[|s| - 1];
      InsertByStartKeeps(x, init);
      InsertByStartAdds(x, init);
      var r := InsertByStart(x, init);
      forall i | 0 <= i < |r| ensures r[i].period.start <= last.period.start {
        var y := r[i];
        assert y in multiset(r);
        if y != x {
          assert y in multiset(init);
          var k :| 0 <= k < |init| && init[k] == y;
          assert s[k] == y;
        }
      }
      assert InsertByStart(x, s) == r + [last];
    }
  }

  /** The sorted listing is ascending by start and holds exactly the input. */
  lemma {:induction false} SortByStartSorts(xs: seq<Entry>)
    ensures Ascending(SortByStart(xs))
    ensures multiset(SortByStart(xs)) == multiset(xs)
    decreases |xs|
  {
    if xs != [] {
      var init := xs[..|xs| - 1];
      SortByStartSorts(init);
      InsertByStartKeeps(xs[|xs| - 1], SortByStart(init));
      InsertByStartAdds(xs[|xs| - 1], SortByStart(init));
      assert xs == init + [xs[|xs| - 1]];
    }
  }

  /** The entries that start at `t`, in order. */
  function WithStart(es: seq<Entry>, t: int): seq<Entry> {
    if es == [] then []
    else WithStart(es[..|es| - 1], t)
         + (if es[|es| - 1].period.start == t then [es[|es| - 1]] else [])
  }

  lemma {:induction false} WithStartAppend(a: seq<Entry>, b: seq<Entry>, t: int)
    ensures WithStart(a + b, t) == WithStart(a, t) + WithStart(b, t)
    decreases |b|
  {
    if b != [] {
      assert (a + b)[..|a + b| - 1] == a + b[..|b| - 1];
      WithStartAppend(a, b[..|b| - 1], t);
    } else {
      assert a + b == a;
    }
  }

  lemma {:induction false} InsertByStartStable(x: Entry, s: seq<Entry>, t: int)
    ensures WithStart(InsertByStart(x, s), t) ==
      WithStart(s, t) + (if x.period.start == t then [x] else [])
    decreases |s|
  {
    if s != [] && s[|s| - 1].period.start > x.period.start {
      var init := s[..|s| - 1];
      var last := s[|s| - 1];
      InsertByStartStable(x, init, t);
      var r := InsertByStart(x, init);
      assert InsertByStart(x, s) == r + [last];
      assert (r + [last])[..|r|] == r;
      assert WithStart(r + [last], t) == WithStart(r, t) + (if last.period.start == t then [last] else []);
    } else {
      assert InsertByStart(x, s) == s + [x];
      assert (s + [x])[..|s|] == s;
    }
  }

  /** The sort is stable: entries with equal starts keep their input order. */
  lemma {:induction false} SortByStartStable(xs: seq<Entry>, t: int)
    ensures WithStart(SortByStart(xs), t) == WithStart(xs, t)
    decreases |xs|
  {
    if xs != [] {
      var init := xs[..|xs| - 1];
      SortByStartStable(init, t);
      InsertByStartStable(xs[|xs| - 1], SortByStart(init), t);
    }
  }

  /** The merged listing: the unrefined coarse entries, then every fine
      entire-run, sorted by start. */
  method MergedListing(coarse: seq<Entry>, entire: seq<seq<Entry>>) returns (keys: seq<Period>, listing: seq<Entry>)
    requires NonEmptyRuns(entire)
    ensures keys == Keys(entire)
    ensures listing == SortByStart(Unrefined(coarse, keys) + Flatten(entire))
  {
    keys := RunKeys(entire);
    var saved := KeepUnrefined(coarse, keys);
    var total := saved;
    for i := 0 to |entire|
      invariant total == saved + Flatten(entire[..i])
    {
      assert entire[..i + 1][..i] == entire[..i];
      total := total + entire[i];
    }
    assert entire[..|entire|] == entire;
    listing := SortByStart(total);
  }

  /** What the merged listing holds: it is ascending by start; it is a
      permutation of the unrefined coarse entries followed by the fine
      entries, so its length is their sum; entries that start together keep
      coarse-before-fine and run order; and a coarse entry is left out
      exactly when its period is a fine key. */
  lemma MergedListingMeaning(coarse: seq<Entry>, entire: seq<seq<Entry>>)
    requires NonEmptyRuns(entire)
    ensures var keys := Keys(entire);
      var saved := Unrefined(coarse, keys);
      var listing := SortByStart(saved + Flatten(entire));
      && Ascending(listing)
      && multiset(listing) == multiset(saved) + multiset(Flatten(entire))
      && |listing| == |saved| + |Flatten(entire)|
      && (forall t :: WithStart(listing, t) == WithStart(saved, t) + WithStart(Flatten(entire), t))
      && (forall e :: e in saved <==> e in coarse && e.period !in keys)
  {
    var keys := Keys(entire);
    var saved := Unrefined(coarse, keys);
    var total := saved + Flatten(entire);
    SortByStartSorts(total);
    assert |SortByStart(total)| == |multiset(SortByStart(total))| == |multiset(total)| == |total|;
    forall t ensures WithStart(SortByStart(total), t) == WithStart(saved, t) + WithStart(Flatten(entire), t) {
      SortByStartStable(total, t);
      WithStartAppend(saved, Flatten(entire), t);
    }
    UnrefinedCounts(coarse, keys);
    forall e ensures e in saved <==> e in coarse && e.period !in keys {
      assert e in saved <==> e in multiset(saved);
      assert e in coarse <==> e in multiset(coarse);
    }
  }

  // ----------------------------------------------------------- rendering

  /** `[k]. Time Stamp: ...`: one super-fine divided entry. */
  datatype Stamp = Stamp(number: nat, time: int, caption: string)

  /** `(j). Time Period: ...`: one divided entry of a detail block, with the
      stamps of a super-fine run when it has one. */
  datatype Sub = Sub(number: nat, period: Period, caption: string, nested: Option<seq<Stamp>>)

  /** `i. Time Period: ...`: one listed entry, with its detail block when it
      has one. */
  datatype Item = Item(number: nat, period: Period, caption: string, detail: Option<seq<Sub>>)

  /** The finer memory the listing draws detail from: the fine keys with
      their divided runs, and the super-fine keys with their entire and
      divided runs (all lists parallel). */
  datatype Layers = Layers(
    keys: seq<Period>, divided: seq<seq<Entry>>,
    superKeys: seq<Period>, superEntire: seq<seq<Entry>>, superDivided: seq<seq<Entry>>)
  {
    predicate Valid() {
      && |divided| == |keys|
      && |superEntire| == |superKeys| && |superDivided| == |superKeys|
      && NonEmptyRuns(superEntire)
    }
  }

  /** No finer memory at all: a plain numbered listing. */
  const NoLayers: Layers := Layers([], [], [], [], [])

  /** The stamps of a run: numbered from 1, each with its entry's start. */
  predicate IsStampList(run: seq<Entry>, stamps: seq<Stamp>) {
    && |stamps| == |run|
    && forall k :: 0 <= k < |run| ==>
         stamps[k] == Stamp(k + 1, run[k].period.start, run[k].caption)
  }

  /** Divided entry `e` shown as the `j`-th line of a detail block: a
      super-fine period shows the first super-fine entire caption in place of
      its own, and the super-fine divided run (at the first matching key) as
      stamps. */
  predicate IsSub(e: Entry, j: nat, l: Layers, s: Sub)
    requires l.Valid()
  {
    && s.number == j + 1 && s.period == e.period
    && if e.period in l.superKeys then
         var idx := IndexOf(l.superKeys, e.period);
         && s.caption == l.superEntire[idx][0].caption
         && s.nested.Some? && IsStampList(l.superDivided[idx], s.nested.value)
       else
         s.caption == e.caption && s.nested == None
  }

  predicate IsDetail(run: seq<Entry>, l: Layers, subs: seq<Sub>)
    requires l.Valid()
  {
    |subs| == |run| && forall j :: 0 <= j < |run| ==> IsSub(run[j], j, l, subs[j])
  }

  /** Listed entry `e` shown as item `i + 1`: it has a detail block exactly
      when its period is a fine key, holding the divided run at the first
      matching key. */
  predicate IsItem(e: Entry, i: nat, l: Layers, it: Item)
    requires l.Valid()
  {
    && it.number == i + 1 && it.period == e.period && it.caption == e.caption
    && if e.period in l.keys then
         it.detail.Some? && IsDetail(l.divided[IndexOf(l.keys, e.period)], l, it.detail.value)
       else
         it.detail == None
  }

  predicate IsListing(listing: seq<Entry>, l: Layers, items: seq<Item>)
    requires l.Valid()
  {
    |items| == |listing| && forall i :: 0 <= i < |listing| ==> IsItem(listing[i], i, l, items[i])
  }

  method StampList(run: seq<Entry>) returns (stamps: seq<Stamp>)
    ensures IsStampList(run, stamps)
  {
    stamps := [];
    for k := 0 to |run|
      invariant IsStampList(run[..k], stamps)
    {
      stamps := stamps + [Stamp(k + 1, run[k].period.start, run[k].caption)];
    }
    assert run[..|run|] == run;
  }

  method DetailList(run: seq<Entry>, l: Layers) returns (subs: seq<Sub>)
    requires l.Valid()
    ensures IsDetail(run, l, subs)
  {
    subs := [];
    for j := 0 to |run|
      invariant IsDetail(run[..j], l, subs)
    {
      var e := run[j];
      if e.period !in l.superKeys {
        subs := subs + [Sub(j + 1, e.period, e.caption, None)];
      } else {
        var idx := IndexOf(l.superKeys, e.period);
        var stamps := StampList(l.superDivided[idx]);
        subs := subs + [Sub(j + 1, e.period, l.superEntire[idx][0].caption, Some(stamps))];
      }
    }
    assert run[..|run|] == run;
  }

  /** The numbered listing, each fine entry followed by its detail block. */
  method RenderItems(listing: seq<Entry>, l: Layers) returns (items: seq<Item>)
    requires l.Valid()
    ensures IsListing(listing, l, items)
  {
    items := [];
    for i := 0 to |listing|
      invariant IsListing(listing[..i], l, items)
    {
      var e := listing[i];
      if e.period in l.keys {
        var idx := IndexOf(l.keys, e.period);
        var subs := DetailList(l.divided[idx], l);
        items := items + [Item(i + 1, e.period, e.caption, Some(subs))];
      } else {
        items := items + [Item(i + 1, e.period, e.caption, None)];
      }
    }
    assert listing[..|listing|] == listing;
  }

  /** The plain numbered listing of the two coarse-only prompts. */
  method NumberedList(memory: seq<Entry>) returns (items: seq<Item>)
    ensures IsListing(memory, NoLayers, items)
    ensures forall i :: 0 <= i < |items| ==> items[i].detail == None
  {
    items := [];
    for i := 0 to |memory|
      invariant IsListing(memory[..i], NoLayers, items)
      invariant forall k :: 0 <= k < i ==> items[k].detail == None
    {
      items := items + [Item(i + 1, memory[i].period, memory[i].caption, None)];
    }
    assert memory[..|memory|] == memory;
  }

  /** Only fine entries carry a detail block: an unrefined coarse entry
      never does. */
  lemma OnlyFineEntriesDetailed(coarse: seq<Entry>, entire: seq<seq<Entry>>, l: Layers, items: seq<Item>)
    requires NonEmptyRuns(entire) && l.Valid() && l.keys == Keys(entire)
    requires IsListing(SortByStart(Unrefined(coarse, l.keys) + Flatten(entire)), l, items)
    ensures var listing := SortByStart(Unrefined(coarse, l.keys) + Flatten(entire));
      forall i :: 0 <= i < |items| && items[i].detail.Some? ==> listing[i] in Flatten(entire)
  {
    var saved := Unrefined(coarse, l.keys);
    var listing := SortByStart(saved + Flatten(entire));
    SortByStartSorts(saved + Flatten(entire));
    UnrefinedCounts(coarse, l.keys);
    forall i | 0 <= i < |items| && items[i].detail.Some? ensures listing[i] in Flatten(entire) {
      var e := listing[i];
      assert e.period in l.keys;
      assert e in multiset(saved + Flatten(entire));
      assert multiset(saved)[e] == 0;
    }
  }

  /** A run's stamps are determined by the run. */
  lemma StampsDetermined(run: seq<Entry>, a: seq<Stamp>, b: seq<Stamp>)
    requires IsStampList(run, a) && IsStampList(run, b)
    ensures a == b
  {
    assert forall k :: 0 <= k < |run| ==> a[k] == b[k];
  }

  /** A detail block is determined by its divided run and the layers. */
  lemma DetailDetermined(run: seq<Entry>, l: Layers, a: seq<Sub>, b: seq<Sub>)
    requires l.Valid() && IsDetail(run, l, a) && IsDetail(run, l, b)
    ensures a == b
  {
    forall j | 0 <= j < |run| ensures a[j] == b[j] {
      if run[j].period in l.superKeys {
        var idx := IndexOf(l.superKeys, run[j].period);
        StampsDetermined(l.superDivided[idx], a[j].nested.value, b[j].nested.value);
      }
    }
  }

  /** The rendering of a listing is determined by the listing and the
      layers: two prompts built from the same memory show the same items. */
  lemma ListingDetermined(listing: seq<Entry>, l: Layers, a: seq<Item>, b: seq<Item>)
    requires l.Valid() && IsListing(listing, l, a) && IsListing(listing, l, b)
    ensures a == b
  {
    forall i | 0 <= i < |listing| ensures a[i] == b[i] {
      if listing[i].period in l.keys {
        DetailDetermined(l.divided[IndexOf(l.keys, listing[i].period)], l, a[i].detail.value, b[i].detail.value);
      }
    }
  }

  // ------------------------------------------------------------- prompts

  /** Which builder made a prompt; its fixed wording is implied. */
  datatype Kind = CoarseAnswer | TypeJudge | Nominate | FineAnswer | ForcedAnswer

  /** The sentences whose presence depends on the inputs. */
  datatype Instruction =
    | SingleOption    // "only one option can answer"
    | ChooseOption    // "select the single best option"
    | MustAnswer      // "you must provide a best answer"
    | ExcludeThese    // the header of the excluded-periods list

  /** A prompt: the video duration when it is stated, the numbered evidence,
      the question with its options, the periods the oracle must not pick,
      and the input-dependent sentences in order. */
  datatype Prompt = Prompt(
    kind: Kind, duration: Option<int>, items: seq<Item>, question: string,
    options: seq<string>, excluded: seq<Period>, instructions: seq<Instruction>)

  /** `answer_with_coarse_memory_prompt`. */
  method AnswerWithCoarseMemoryPrompt(memory: seq<Entry>, question: string, options: seq<string>)
    returns (p: Prompt)
    ensures p.kind == CoarseAnswer && p.duration == None && p.question == question
    ensures p.options == options && p.excluded == []
    ensures IsListing(memory, NoLayers, p.items)
    ensures p.instructions == if options != [] then [SingleOption] else []
  {
    var items := NumberedList(memory);
    var instructions := [];
    if |options| != 0 {
      instructions := instructions + [SingleOption];
    }
    p := Prompt(CoarseAnswer, None, items, question, options, [], instructions);
  }

  /** `question_type_judge_prompt`. */
  method QuestionTypeJudgePrompt(memory: seq<Entry>, question: string, options: seq<string>)
    returns (p: Prompt)
    ensures p.kind == TypeJudge && p.duration == None && p.question == question
    ensures p.options == options && p.excluded == [] && p.instructions == []
    ensures IsListing(memory, NoLayers, p.items)
  {
    var items := NumberedList(memory);
    p := Prompt(TypeJudge, None, items, question, options, [], []);
  }

  /** `answer_with_coarse_and_fine_memory_prompt`. */
  method AnswerWithCoarseAndFineMemoryPrompt(
    coarse: seq<Entry>, entire: seq<seq<Entry>>, divided: seq<seq<Entry>>,
    superEntire: seq<seq<Entry>>, superDivided: seq<seq<Entry>>,
    question: string, options: seq<string>, duration: int)
    returns (p: Prompt)
    requires NonEmptyRuns(entire) && |divided| == |entire|
    requires NonEmptyRuns(superEntire) && |superDivided| == |superEntire|
    ensures p.kind == FineAnswer && p.duration == Some(duration) && p.question == question
    ensures p.options == options && p.excluded == []
    ensures var l := Layers(Keys(entire), divided, Keys(superEntire), superEntire, superDivided);
      l.Valid() &&
      IsListing(SortByStart(Unrefined(coarse, Keys(entire)) + Flatten(entire)), l, p.items)
    ensures p.instructions == if options != [] then [SingleOption] else []
  {
    var keys, listing := MergedListing(coarse, entire);
    var superKeys := RunKeys(superEntire);
    var items := RenderItems(listing, Layers(keys, divided, superKeys, superEntire, superDivided));
    var instructions := [];
    if |options| != 0 {
      instructions := instructions + [SingleOption];
    }
    p := Prompt(FineAnswer, Some(duration), items, question, options, [], instructions);
  }

  /** `must_answer_with_coarse_and_fine_memory_prompt`: the same evidence,
      and an order to answer (or to choose an option) in every case. */
  method MustAnswerWithCoarseAndFineMemoryPrompt(
    coarse: seq<Entry>, entire: seq<seq<Entry>>, divided: seq<seq<Entry>>,
    superEntire: seq<seq<Entry>>, superDivided: seq<seq<Entry>>,
    question: string, options: seq<string>, duration: int)
    returns (p: Prompt)
    requires NonEmptyRuns(entire) && |divided| == |entire|
    requires NonEmptyRuns(superEntire) && |superDivided| == |superEntire|
    ensures p.kind == ForcedAnswer && p.duration == Some(duration) && p.question == question
    ensures p.options == options && p.excluded == []
    ensures var l := Layers(Keys(entire), divided, Keys(superEntire), superEntire, superDivided);
      l.Valid() &&
      IsListing(SortByStart(Unrefined(coarse, Keys(entire)) + Flatten(entire)), l, p.items)
    ensures p.instructions == if options != [] then [ChooseOption] else [MustAnswer]
  {
    var keys, listing := MergedListing(coarse, entire);
    var superKeys := RunKeys(superEntire);
    var items := RenderItems(listing, Layers(keys, divided, superKeys, superEntire, superDivided));
    var instructions;
    if |options| != 0 {
      instructions := [ChooseOption];
    } else {
      instructions := [MustAnswer];
    }
    p := Prompt(ForcedAnswer, Some(duration), items, question, options, [], instructions);
  }

  /** `get_single_related_time_prompt`: the fine evidence without any
      super-fine detail, and the periods already searched, which the oracle
      must not pick again. */
  method GetSingleRelatedTimePrompt(
    coarse: seq<Entry>, entire: seq<seq<Entry>>, divided: seq<seq<Entry>>,
    question: string, options: seq<string>, excluded: seq<Period>, duration: int)
    returns (p: Prompt)
    requires NonEmptyRuns(entire) && |divided| == |entire|
    ensures p.kind == Nominate && p.duration == Some(duration) && p.question == question
    ensures p.options == options && p.excluded == excluded
    ensures var l := Layers(Keys(entire), divided, [], [], []);
      l.Valid() &&
      IsListing(SortByStart(Unrefined(coarse, Keys(entire)) + Flatten(entire)), l, p.items)
    ensures forall i :: 0 <= i < |p.items| && p.items[i].detail.Some? ==>
      forall j :: 0 <= j < |p.items[i].detail.value| ==> p.items[i].detail.value[j].nested == None
    ensures p.instructions == if excluded != [] then [ExcludeThese] else []
  {
    var keys, listing := MergedListing(coarse, entire);
    var l := Layers(keys, divided, [], [], []);
    var items := RenderItems(listing, l);
    var instructions := [];
    if |excluded| != 0 {
      instructions := instructions + [ExcludeThese];
    }
    p := Prompt(Nominate, Some(duration), items, question, options, excluded, instructions);
  }
}
