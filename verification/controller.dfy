/** `demo_infer` (demo.py): the search controller. It asks for an answer from
    the coarse memory, routes the question, then runs at most five rounds of
    nominate a period, caption it twice, store the result and ask again,
    and finally forces an answer. The oracle, the reply evaluator and the
    captioner are parameters; the session returns its outcome together with
    the trace of what it asked and extracted. */
module Controller {
  import opened Timeline
  import opened Evidence
  import AnswerParser
  import Ordinal
  import PeriodFilter
  import Windowing

  // ------------------------------------------------------------- history

  /** The three parallel lists of a history, as values. */
  datatype Hist = Hist(periods: seq<Period>, entire: seq<seq<Entry>>, divided: seq<seq<Entry>>)
  {
    predicate Parallel() {
      |entire| == |periods| && |divided| == |periods|
    }
  }

  /** Insert-or-replace on history values: a period already present keeps
      its slot and gets the new runs; a new period is appended with them. */
  function Put(h: Hist, p: Period, e: seq<Entry>, d: seq<Entry>): (r: Hist)
    requires h.Parallel()
    ensures r.Parallel() && p in r.periods
  {
    if p in h.periods then
      var i := IndexOf(h.periods, p);
      Hist(h.periods, h.entire[i := e], h.divided[i := d])
    else Hist(h.periods + [p], h.entire + [e], h.divided + [d])
  }

  /** One memory history of the source (`fine_memory_history` or
      `super_fine_memory_history`): three parallel lists, one slot per
      searched period. */
  class MemoryHistory {
    var periods: seq<Period>
    var entire: seq<seq<Entry>>
    var divided: seq<seq<Entry>>

    /** The lists stay parallel and no period is stored twice. */
    predicate Valid()
      reads this
    {
      |entire| == |periods| && |divided| == |periods| && Distinct(periods)
    }

    /** The history's lists, as a value. */
    function State(): Hist
      reads this
    {
      Hist(periods, entire, divided)
    }

    constructor ()
      ensures Valid() && State() == Hist([], [], [])
    {
      periods := [];
      entire := [];
      divided := [];
    }

    /** Insert-or-replace: a period already present keeps its slot and gets
        the new runs; a new period is appended with them. */
    method Store(p: Period, e: seq<Entry>, d: seq<Entry>)
      requires Valid()
      modifies this
      ensures Valid()
      ensures State() == Put(old(State()), p, e, d)
      ensures old(p in periods) ==>
        var i := IndexOf(old(periods), p);
        periods == old(periods) && entire == old(entire)[i := e] && divided == old(divided)[i := d]
      ensures old(p !in periods) ==>
        periods == old(periods) + [p] && entire == old(entire) + [e] && divided == old(divided) + [d]
      ensures p in periods && entire[IndexOf(periods, p)] == e && divided[IndexOf(periods, p)] == d
      ensures forall k :: 0 <= k < |entire| ==> entire[k] == e || entire[k] in old(entire)
      ensures forall q :: q in old(periods) && q != p ==>
        q in periods && IndexOf(periods, q) == IndexOf(old(periods), q)
        && entire[IndexOf(periods, q)] == old(entire)[IndexOf(old(periods), q)]
        && divided[IndexOf(periods, q)] == old(divided)[IndexOf(old(periods), q)]
    {
      if p in periods {
        var i := IndexOf(periods, p);
        entire := entire[i := e];
        divided := divided[i := d];
      } else {
        periods := periods + [p];
        entire := entire + [e];
        divided := divided + [d];
        forall q | q in old(periods) ensures IndexOf(periods, q) == IndexOf(old(periods), q) {
          IndexOfPrefix(old(periods), [p], q);
        }
      }
    }
  }

  /** The first position of `x` is the same in a longer list. */
  lemma {:induction false} IndexOfPrefix<T>(xs: seq<T>, ys: seq<T>, x: T)
    requires x in xs
    ensures IndexOf(xs + ys, x) == IndexOf(xs, x)
  {
    if xs[0] != x {
      assert (xs + ys)[1..] == xs[1..] + ys;
      IndexOfPrefix(xs[1..], ys, x);
    }
  }

  // ------------------------------------------------------------- session

  datatype Split = Entire | Divided

  /** The frame rate and segment length a caption pass samples with. */
  datatype Sampling = Sampling(fps: int, frames: int)

  /** The settings the controller reads: `sampling_fps`,
      `short_video_frames`, `minimal_duration`, the coarse overlap in time
      units (`coarse_overlapping_frames / sampling_fps`), and the overlap the
      captioner is given (`fine_overlapping_frames`). */
  datatype Config = Config(samplingFps: int, shortVideoFrames: int, minimalDuration: int, overlap: int,
                           fineOverlap: int)

  /** What the session returns: an answer value, Python's None, or an
      exception (a missing key, a value of the wrong shape, an empty run). */
  datatype Outcome = Answered(answer: Value) | NoAnswer | Raised

  /** The session's inputs. `ask(i, prompt)` is the oracle's reply to the
      prompt sent as event `i`; `evaluate` reads a reply into a dict (Python's
      `parse_answer`, see `Infer`); `extract` stands for the captioner. */
  datatype Session = Session(
    question: string, coarse: seq<Entry>, cfg: Config,
    ask: (nat, Prompt) -> string,
    evaluate: string -> Option<Dict>,
    extract: (Period, Split, Sampling, string) -> seq<Entry>)

  /** One step of the session: a prompt sent and its reply evaluated, or one
      nominated period captioned in both passes. `view` is the coarse list
      the prompt was built from. */
  datatype Event =
    | Asked(kind: Kind, view: seq<Entry>, prompt: Prompt, reply: string, parsed: Option<Dict>)
    | Extracted(period: Period, instruction: string, entireSampling: Sampling,
                dividedSampling: Sampling, entire: seq<Entry>, divided: seq<Entry>)

  /** A period is searched at super-fine grain when it spans exactly the
      minimal duration. */
  predicate IsSuperFine(p: Period, cfg: Config) {
    p.end - p.start == cfg.minimalDuration
  }

  /** The sampling of each caption pass: ordinary periods are captioned whole
      at the configured rate and in minimal-duration pieces at 2 fps;
      super-fine ones in pieces of 2 frames. */
  function SamplingFor(split: Split, superFine: bool, cfg: Config): Sampling {
    match split
    case Entire => if superFine then Sampling(2, 2 * cfg.minimalDuration) else Sampling(cfg.samplingFps, cfg.shortVideoFrames)
    case Divided => if superFine then Sampling(2, 2) else Sampling(2, 2 * cfg.minimalDuration)
  }

  /** `d['Answer']`. */
  function AnswerOf(d: Dict): Outcome {
    if "Answer" in d then Answered(d["Answer"]) else Raised
  }

  /** A `[start, end]` pair of numbers. */
  function AsPeriod(v: Value): Option<Period> {
    match v
    case List(xs) =>
      if |xs| == 2 && xs[0].Num? && xs[1].Num? then Some(Period(xs[0].n, xs[1].n)) else None
    case _ => None
  }

  /** Each value read as a period, or None when one of them is not one. */
  function PeriodsOfValues(xs: seq<Value>): (r: Option<seq<Period>>)
    ensures r.Some? <==> forall k :: 0 <= k < |xs| ==> AsPeriod(xs[k]).Some?
    ensures r.Some? ==> (|r.value| == |xs|
      && forall k :: 0 <= k < |xs| ==> AsPeriod(xs[k]) == Some(r.value[k]))
  {
    if xs == [] then Some([])
    else
      var rest := PeriodsOfValues(xs[1..]);
      assert forall k :: 1 <= k < |xs| ==> xs[1..][k - 1] == xs[k];
      if AsPeriod(xs[0]).Some? && rest.Some? then Some([AsPeriod(xs[0]).value] + rest.value)
      else None
  }

  /** A list of periods, as the filter reads a judge's `Time Period`; an
      empty string iterates as an empty list. */
  function AsPeriods(v: Value): Option<seq<Period>> {
    match v
    case List(xs) => PeriodsOfValues(xs)
    case Str(t) => if t == "" then Some([]) else None
    case _ => None
  }

  /** The nominated period: a one-element list stands for its element. */
  function Nominated(v: Value): Option<Period> {
    match v
    case List(xs) => if |xs| == 1 then AsPeriod(xs[0]) else AsPeriod(v)
    case _ => None
  }

  /** The coarse list the search loop sees after the judge's reply `d`, or
      None when reading the reply raises: the whole list when `Flag` is
      false, else the entries kept by the period filter. */
  function Routing(d: Dict, coarse: seq<Entry>, overlap: int): (r: Option<seq<Entry>>)
    requires |coarse| > 0
    ensures r.Some? <==> Routes(d)
  {
    if "Flag" !in d then None
    else if !Truthy(d["Flag"]) then Some(coarse)
    else if "Time Period" !in d then None
    else
      match AsPeriods(d["Time Period"])
      case None => None
      case Some(related) => Some(PeriodFilter.Keep(coarse, PeriodFilter.AllWindows(coarse, related, overlap)))
  }

  /** Reading the judge's reply `d` does not raise: it has a `Flag`, and a
      true one comes with a list of periods. */
  predicate Routes(d: Dict) {
    "Flag" in d && (Truthy(d["Flag"]) ==> "Time Period" in d && AsPeriods(d["Time Period"]).Some?)
  }

  /** The history of one grain after a trace: every caption pass of that
      grain stored by insert-or-replace, in trace order. */
  function HistoryOf(trace: seq<Event>, superFine: bool, cfg: Config): (h: Hist)
    ensures h.Parallel()
  {
    if trace == [] then Hist([], [], [])
    else
      var prev := HistoryOf(trace[..|trace| - 1], superFine, cfg);
      var e := trace[|trace| - 1];
      if e.Extracted? && IsSuperFine(e.period, cfg) == superFine
      then Put(prev, e.period, e.entire, e.divided) else prev
  }

  /** The periods captioned so far at one grain, each once, in the order
      they were first captioned. */
  function Searched(trace: seq<Event>, superFine: bool, cfg: Config): seq<Period> {
    HistoryOf(trace, superFine, cfg).periods
  }

  /** A caption pass changes only the history of its own grain, by
      insert-or-replace; a prompt changes neither. */
  lemma HistoryStep(trace: seq<Event>, e: Event, superFine: bool, cfg: Config)
    ensures HistoryOf(trace + [e], superFine, cfg) ==
      if e.Extracted? && IsSuperFine(e.period, cfg) == superFine
      then Put(HistoryOf(trace, superFine, cfg), e.period, e.entire, e.divided)
      else HistoryOf(trace, superFine, cfg)
  {
    assert (trace + [e])[..|trace|] == trace;
  }

  /** The stored period holds the new runs. */
  lemma PutHolds(h: Hist, p: Period, e: seq<Entry>, d: seq<Entry>)
    requires h.Parallel()
    ensures var r := Put(h, p, e, d);
      r.entire[IndexOf(r.periods, p)] == e && r.divided[IndexOf(r.periods, p)] == d
  {
    if p !in h.periods {
      var r := Put(h, p, e, d);
      assert r.periods[|h.periods|] == p;
      assert IndexOf(r.periods, p) == |h.periods|;
    }
  }

  /** Every other period keeps its slot and its runs. */
  lemma PutKeeps(h: Hist, p: Period, e: seq<Entry>, d: seq<Entry>, q: Period)
    requires h.Parallel() && q in h.periods && q != p
    ensures var r := Put(h, p, e, d);
      && q in r.periods && IndexOf(r.periods, q) == IndexOf(h.periods, q)
      && r.entire[IndexOf(r.periods, q)] == h.entire[IndexOf(h.periods, q)]
      && r.divided[IndexOf(r.periods, q)] == h.divided[IndexOf(h.periods, q)]
  {
    if p !in h.periods {
      IndexOfPrefix(h.periods, [p], q);
    }
  }

  /** The history of a grain holds, at the slot of every period captioned
      at that grain, the runs of that period's latest caption pass. */
  lemma {:induction false} HistoryHoldsLatest(trace: seq<Event>, superFine: bool, cfg: Config, j: nat)
    requires j < |trace| && trace[j].Extracted? && IsSuperFine(trace[j].period, cfg) == superFine
    requires forall k :: j < k < |trace| && trace[k].Extracted? ==> trace[k].period != trace[j].period
    ensures var h := HistoryOf(trace, superFine, cfg);
      && trace[j].period in h.periods
      && h.entire[IndexOf(h.periods, trace[j].period)] == trace[j].entire
      && h.divided[IndexOf(h.periods, trace[j].period)] == trace[j].divided
  {
    var n := |trace| - 1;
    var init := trace[..n];
    var prev := HistoryOf(init, superFine, cfg);
    var last := trace[n];
    if j < n {
      assert forall k :: j < k < n ==> init[k] == trace[k];
      assert init[j] == trace[j];
      HistoryHoldsLatest(init, superFine, cfg, j);
      if last.Extracted? && IsSuperFine(last.period, cfg) == superFine {
        PutKeeps(prev, last.period, last.entire, last.divided, trace[j].period);
      }
    } else {
      PutHolds(prev, last.period, last.entire, last.divided);
    }
  }

  lemma {:induction false} SearchedGrain(trace: seq<Event>, superFine: bool, cfg: Config)
    ensures Distinct(Searched(trace, superFine, cfg))
    ensures forall p :: p in Searched(trace, superFine, cfg) ==> IsSuperFine(p, cfg) == superFine
  {
    if trace != [] {
      SearchedGrain(trace[..|trace| - 1], superFine, cfg);
    }
  }

  /** Periods searched at the two grains never coincide, so listing the
      ordinary ones and then the super-fine ones names each period once. */
  lemma ExcludedDistinct(trace: seq<Event>, cfg: Config)
    ensures Distinct(Searched(trace, false, cfg) + Searched(trace, true, cfg))
  {
    SearchedGrain(trace, false, cfg);
    SearchedGrain(trace, true, cfg);
    var a := Searched(trace, false, cfg);
    var b := Searched(trace, true, cfg);
    forall i, j | 0 <= i < j < |a + b| ensures (a + b)[i] != (a + b)[j] {
      if j >= |a| && i < |a| {
        assert (a + b)[i] in a && (a + b)[j] in b;
      }
    }
  }

  /** The video's duration as the session computes it, from the first
      coarse start to the last coarse end; 0 stands in for an empty coarse
      memory, which raises before any prompt states a duration. */
  function Duration(s: Session): int {
    if |s.coarse| > 0 then s.coarse[|s.coarse| - 1].period.end - s.coarse[0].period.start else 0
  }

  /** The frame reader accepts both caption passes of period `p`: a positive
      rate and segment length, a start before the end, and a non-negative
      overlap. */
  predicate CaptionAccepted(p: Period, cfg: Config) {
    var es := SamplingFor(Entire, IsSuperFine(p, cfg), cfg);
    var ds := SamplingFor(Divided, IsSuperFine(p, cfg), cfg);
    && Windowing.ArgumentsOk(es.fps, es.frames, Some(p), cfg.fineOverlap)
    && Windowing.ArgumentsOk(ds.fps, ds.frames, Some(p), cfg.fineOverlap)
  }

  /** The outcome an event settles, or None when the session goes on: a
      failed parse gives None; a missing key, a value of the wrong shape or a
      period the frame reader refuses raises; a confident answer, and the
      forced one, are returned; an empty entire run raises when the next
      prompt indexes it. */
  function Verdict(e: Event, s: Session): Option<Outcome>
  {
    match e
    case Asked(kind, _, _, _, parsed) =>
      if parsed.None? then Some(NoAnswer)
      else
        var d := parsed.value;
        (match kind
        case CoarseAnswer =>
          if "Confidence" !in d then Some(Raised)
          else if Truthy(d["Confidence"]) then Some(AnswerOf(d))
          else if |s.coarse| == 0 then Some(Raised)
          else None
        case TypeJudge =>
          if |s.coarse| == 0 || !Routes(d) then Some(Raised) else None
        case Nominate =>
          if "Time Period" !in d || Nominated(d["Time Period"]).None?
             || "Instruction" !in d || !d["Instruction"].Str?
             || !CaptionAccepted(Nominated(d["Time Period"]).value, s.cfg)
          then Some(Raised) else None
        case FineAnswer =>
          if "Confidence" !in d then Some(Raised)
          else if Truthy(d["Confidence"]) then Some(AnswerOf(d))
          else None
        case ForcedAnswer => Some(AnswerOf(d)))
    case Extracted(_, _, _, _, entire, _) =>
      if entire == [] then Some(Raised) else None
  }

  /** What the session does next: send a prompt of some kind, or caption the
      nominated period. */
  datatype Step = AskStep(kind: Kind) | CaptionStep

  /** The step that follows `prior`: the coarse answer first; then the judge,
      unless the question holds an ordinal word, which goes straight to a
      nomination; a nomination is captioned and the captions are followed
      by a fine answer; an unconfident fine answer leads to another
      nomination, or after the fifth one to the forced answer. A forced
      answer always settles the session, so the step after it is never
      taken. */
  function NextStep(prior: seq<Event>, s: Session): Step {
    StepAfter(prior, Ordinal.ContainsOrdinalNumber(s.question))
  }

  /** `NextStep` with the routing test's result, `ordinal`, given. */
  function StepAfter(prior: seq<Event>, ordinal: bool): Step {
    if prior == [] then AskStep(CoarseAnswer)
    else
      match prior[|prior| - 1]
      case Extracted(_, _, _, _, _, _) => AskStep(FineAnswer)
      case Asked(kind, _, _, _, _) =>
        (match kind
        case CoarseAnswer =>
          if ordinal then AskStep(Nominate) else AskStep(TypeJudge)
        case TypeJudge => AskStep(Nominate)
        case Nominate => CaptionStep
        case FineAnswer =>
          if CountAsks(prior, FineAnswer) < 5 then AskStep(Nominate) else AskStep(ForcedAnswer)
        case ForcedAnswer => AskStep(ForcedAnswer))
  }

  /** What settles a session: an unparsable reply, and only that, ends it
      with no answer; the forced answer always settles it; an answer is only
      ever the `Answer` value of a coarse, fine or forced reply; a caption
      pass settles it exactly when its entire run is empty. */
  lemma VerdictCases(e: Event, s: Session)
    ensures var r := Verdict(e, s);
      && (r == Some(NoAnswer) <==> e.Asked? && e.parsed.None?)
      && (IsAsk(e, ForcedAnswer) ==> r.Some?)
      && (r.Some? && r.value.Answered? ==>
            && e.Asked? && !e.kind.TypeJudge? && !e.kind.Nominate? && e.parsed.Some?
            && "Answer" in e.parsed.value && r.value.answer == e.parsed.value["Answer"])
      && (e.Extracted? ==> (r.Some? <==> e.entire == []))
  {
  }

  /** The order of steps: the coarse answer comes first and only first; the
      type judge follows only a coarse answer to a question without an
      ordinal word; a caption pass follows exactly a nomination, and a fine
      answer exactly a caption pass; the forced answer follows only itself,
      or a fine answer once five fine answers have been asked. */
  lemma NextStepOrder(prior: seq<Event>, ordinal: bool)
    ensures StepAfter(prior, ordinal) == AskStep(CoarseAnswer) <==> prior == []
    ensures StepAfter(prior, ordinal) == AskStep(TypeJudge) ==>
      |prior| > 0 && IsAsk(prior[|prior| - 1], CoarseAnswer) && !ordinal
    ensures StepAfter(prior, ordinal) == CaptionStep <==> |prior| > 0 && IsAsk(prior[|prior| - 1], Nominate)
    ensures StepAfter(prior, ordinal) == AskStep(FineAnswer) <==> |prior| > 0 && prior[|prior| - 1].Extracted?
    ensures StepAfter(prior, ordinal) == AskStep(ForcedAnswer) ==>
      |prior| > 0 && (IsAsk(prior[|prior| - 1], ForcedAnswer)
                      || (IsAsk(prior[|prior| - 1], FineAnswer) && CountAsks(prior, FineAnswer) >= 5))
  {
  }

  /** The coarse list a prompt of `kind` is built from: the routed one for
      the search prompts, the whole memory for the others. */
  function ViewFor(prior: seq<Event>, kind: Kind, s: Session): seq<Entry> {
    if kind.Nominate? || kind.FineAnswer? then RoutedView(prior, s) else s.coarse
  }

  /** The listing a prompt with refined evidence shows: the entries of
      `view` that no fine run refines, merged by start with the fine runs. */
  function MergedOf(view: seq<Entry>, fine: Hist): seq<Entry>
    requires NonEmptyRuns(fine.entire)
  {
    SortByStart(Unrefined(view, Keys(fine.entire)) + Flatten(fine.entire))
  }

  /** A prompt from the coarse memory alone: no duration, no excluded
      periods, no option sentence, and `view` listed plainly. */
  predicate CoarsePromptOk(view: seq<Entry>, p: Prompt) {
    && p.duration == None && p.excluded == [] && p.instructions == []
    && IsListing(view, NoLayers, p.items)
  }

  /** The nomination prompt: the video duration, the periods searched so
      far (ordinary ones first) as excluded, and `view` merged with the fine
      history, detailed by its divided runs only. */
  predicate NominationPromptOk(view: seq<Entry>, fine: Hist, superFine: Hist, p: Prompt, s: Session) {
    && fine.Parallel() && NonEmptyRuns(fine.entire)
    && p.duration == Some(Duration(s))
    && p.excluded == fine.periods + superFine.periods
    && p.instructions == (if p.excluded != [] then [ExcludeThese] else [])
    && IsListing(MergedOf(view, fine), Layers(Keys(fine.entire), fine.divided, [], [], []), p.items)
  }

  /** An answer prompt with refined evidence: the video duration, the
      given sentences, and `view` merged with the fine history, detailed by
      its divided runs and by the super-fine history. */
  predicate RefinedPromptOk(view: seq<Entry>, fine: Hist, superFine: Hist, p: Prompt, s: Session,
                            instructions: seq<Instruction>) {
    && fine.Parallel() && superFine.Parallel()
    && NonEmptyRuns(fine.entire) && NonEmptyRuns(superFine.entire)
    && p.duration == Some(Duration(s)) && p.excluded == [] && p.instructions == instructions
    && IsListing(MergedOf(view, fine),
         Layers(Keys(fine.entire), fine.divided, Keys(superFine.entire), superFine.entire, superFine.divided),
         p.items)
  }

  /** Prompt `p` of `kind`, sent after `prior` and built from `view`, is the
      one its builder makes, with no options, from the histories `prior`
      left behind. */
  predicate PromptOk(prior: seq<Event>, kind: Kind, view: seq<Entry>, p: Prompt, s: Session) {
    var fine := HistoryOf(prior, false, s.cfg);
    var superFine := HistoryOf(prior, true, s.cfg);
    && p.kind == kind && p.question == s.question && p.options == []
    && (match kind
        case CoarseAnswer => CoarsePromptOk(view, p)
        case TypeJudge => CoarsePromptOk(view, p)
        case Nominate => NominationPromptOk(view, fine, superFine, p, s)
        case FineAnswer => RefinedPromptOk(view, fine, superFine, p, s, [])
        case ForcedAnswer => RefinedPromptOk(view, fine, superFine, p, s, [MustAnswer]))
  }

  /** Event `e`, following `prior`, is what the inputs make it: it is the
      step that comes next; a prompt is built from the view and the memory
      as they stand, its reply comes from the oracle and is evaluated by the
      parser; a caption pass follows the nomination of its period, samples
      as its grain requires, and holds what the captioner returns. */
  predicate EventOk(prior: seq<Event>, e: Event, s: Session) {
    match e
    case Asked(kind, view, prompt, reply, parsed) =>
      && NextStep(prior, s) == AskStep(kind)
      && view == ViewFor(prior, kind, s)
      && PromptOk(prior, kind, view, prompt, s)
      && reply == s.ask(|prior|, prompt)
      && parsed == s.evaluate(reply)
    case Extracted(period, instruction, es, ds, entire, divided) =>
      && |prior| > 0 && NominationOf(prior[|prior| - 1], period, instruction)
      && es == SamplingFor(Entire, IsSuperFine(period, s.cfg), s.cfg)
      && ds == SamplingFor(Divided, IsSuperFine(period, s.cfg), s.cfg)
      && entire == s.extract(period, Entire, es, instruction)
      && divided == s.extract(period, Divided, ds, instruction)
  }

  /** `e` is a nomination prompt whose reply names `period` and carries
      `instruction`. */
  predicate NominationOf(e: Event, period: Period, instruction: string) {
    && IsAsk(e, Nominate) && e.parsed.Some?
    && "Time Period" in e.parsed.value && Nominated(e.parsed.value["Time Period"]) == Some(period)
    && "Instruction" in e.parsed.value && e.parsed.value["Instruction"] == Str(instruction)
  }

  /** Every event of the trace is what the inputs make it. */
  predicate WellFormed(trace: seq<Event>, s: Session) {
    trace == [] ||
    (WellFormed(trace[..|trace| - 1], s) && EventOk(trace[..|trace| - 1], trace[|trace| - 1], s))
  }

  lemma ExtendWellFormed(trace: seq<Event>, e: Event, s: Session)
    ensures WellFormed(trace + [e], s) <==> WellFormed(trace, s) && EventOk(trace, e, s)
  {
    assert (trace + [e])[..|trace|] == trace;
  }

  /** A well-formed trace, read event by event. */
  lemma {:induction false} WellFormedEvents(trace: seq<Event>, s: Session)
    requires WellFormed(trace, s)
    ensures forall i {:trigger EventOk(trace[..i], trace[i], s)} :: 0 <= i < |trace| ==> EventOk(trace[..i], trace[i], s)
  {
    if trace != [] {
      var n := |trace| - 1;
      var init := trace[..n];
      WellFormedEvents(init, s);
      forall i | 0 <= i < |trace| ensures EventOk(trace[..i], trace[i], s) {
        if i < n {
          assert init[..i] == trace[..i];
          assert init[i] == trace[i];
          assert EventOk(init[..i], init[i], s);
        }
      }
    }
  }

  /** No event of the trace settles the outcome. */
  predicate Undecided(trace: seq<Event>, s: Session) {
    trace == [] || (Undecided(trace[..|trace| - 1], s) && Verdict(trace[|trace| - 1], s).None?)
  }

  lemma {:induction false} UndecidedEvents(trace: seq<Event>, s: Session)
    requires Undecided(trace, s)
    ensures forall i :: 0 <= i < |trace| ==> Verdict(trace[i], s).None?
  {
    if trace != [] {
      var n := |trace| - 1;
      UndecidedEvents(trace[..n], s);
      assert forall i :: 0 <= i < n ==> trace[i] == trace[..n][i];
    }
  }

  /** How many prompts of one kind were sent. */
  function CountAsks(trace: seq<Event>, kind: Kind): nat {
    if trace == [] then 0
    else CountAsks(trace[..|trace| - 1], kind) + (if IsAsk(trace[|trace| - 1], kind) then 1 else 0)
  }

  lemma CountAsksExtend(trace: seq<Event>, e: Event, kind: Kind)
    ensures CountAsks(trace + [e], kind) == CountAsks(trace, kind) + (if IsAsk(e, kind) then 1 else 0)
  {
    assert (trace + [e])[..|trace|] == trace;
  }

  /** A trace that counts no prompt of a kind holds none. */
  lemma {:induction false} NoneCounted(trace: seq<Event>, kind: Kind)
    requires CountAsks(trace, kind) == 0
    ensures forall i :: 0 <= i < |trace| ==> !IsAsk(trace[i], kind)
  {
    if trace != [] {
      var n := |trace| - 1;
      NoneCounted(trace[..n], kind);
      assert forall i :: 0 <= i < n ==> trace[..n][i] == trace[i];
    }
  }

  predicate IsAsk(e: Event, kind: Kind) {
    e.Asked? && e.kind == kind
  }

  /** The coarse list the search loop was given: the judge's routing when
      the judge was asked (second) and its reply routes, else the whole
      coarse memory. */
  function RoutedView(trace: seq<Event>, s: Session): seq<Entry> {
    if |trace| > 1 && IsAsk(trace[1], TypeJudge) && trace[1].parsed.Some?
       && |s.coarse| > 0 && Routes(trace[1].parsed.value)
    then Routing(trace[1].parsed.value, s.coarse, s.cfg.overlap).value
    else s.coarse
  }

  /** The coarse answer is asked first; the judge only second, and exactly
      when the question holds no ordinal word and the session got that far. */
  predicate JudgePlaced(trace: seq<Event>, s: Session) {
    && |trace| > 0 && IsAsk(trace[0], CoarseAnswer)
    && (forall i :: 0 <= i < |trace| && IsAsk(trace[i], TypeJudge) ==>
          i == 1 && !Ordinal.ContainsOrdinalNumber(s.question))
    && (|trace| > 1 && !Ordinal.ContainsOrdinalNumber(s.question) ==> IsAsk(trace[1], TypeJudge))
  }

  /** Every nomination and fine answer prompt is built from `view`. */
  predicate SearchSees(trace: seq<Event>, view: seq<Entry>) {
    forall i :: 0 <= i < |trace| && (IsAsk(trace[i], Nominate) || IsAsk(trace[i], FineAnswer)) ==>
      trace[i].view == view
  }

  /** The state of an unfinished session whose search loop sees `filtered`. */
  predicate Running(trace: seq<Event>, s: Session, filtered: seq<Entry>) {
    && WellFormed(trace, s)
    && JudgePlaced(trace, s)
    && Undecided(trace, s)
    && filtered == RoutedView(trace, s)
    && SearchSees(trace, filtered)
    && CountAsks(trace, ForcedAnswer) == 0
  }

  /** A finished session: every event is what the inputs make it; the
      session stopped at the first event that settles an outcome, and that
      event's verdict is the outcome; the judge is placed as the question
      requires and the search saw the routed coarse list; at most five
      rounds ran, and an answer was forced only last and only after five
      unconfident fine answers. */
  predicate Finished(trace: seq<Event>, s: Session, outcome: Outcome) {
    && WellFormed(trace, s)
    && JudgePlaced(trace, s)
    && Undecided(trace[..|trace| - 1], s)
    && Verdict(trace[|trace| - 1], s) == Some(outcome)
    && SearchSees(trace, RoutedView(trace, s))
    && CountAsks(trace, Nominate) <= 5 && CountAsks(trace, FineAnswer) <= 5
    && (forall i :: 0 <= i < |trace| && IsAsk(trace[i], ForcedAnswer) ==>
          i == |trace| - 1 && CountAsks(trace, FineAnswer) == 5)
  }

  /** Appending a search step keeps the judge where it was. */
  lemma JudgeStays(trace: seq<Event>, e: Event, s: Session)
    requires |trace| > 1 || (|trace| == 1 && Ordinal.ContainsOrdinalNumber(s.question))
    requires JudgePlaced(trace, s) && !IsAsk(e, TypeJudge)
    ensures JudgePlaced(trace + [e], s)
    ensures RoutedView(trace + [e], s) == RoutedView(trace, s)
  {
    var t := trace + [e];
    assert t[0] == trace[0];
    assert |trace| > 1 ==> t[1] == trace[1];
    forall i | 0 <= i < |t| && IsAsk(t[i], TypeJudge)
      ensures i == 1 && !Ordinal.ContainsOrdinalNumber(s.question)
    {
      assert i < |trace| && t[i] == trace[i];
    }
  }

  /** Appending a step seen through `view` keeps the search's view. */
  lemma SearchStillSees(trace: seq<Event>, e: Event, view: seq<Entry>)
    requires SearchSees(trace, view)
    requires IsAsk(e, Nominate) || IsAsk(e, FineAnswer) ==> e.view == view
    ensures SearchSees(trace + [e], view)
  {
    var t := trace + [e];
    forall i | 0 <= i < |t| && (IsAsk(t[i], Nominate) || IsAsk(t[i], FineAnswer))
      ensures t[i].view == view
    {
      if i < |trace| {
        assert t[i] == trace[i];
      }
    }
  }

  /** An answer forced as the last step is the only one, and comes after
      five fine answers. */
  lemma ForcedOnlyLast(trace: seq<Event>, e: Event)
    requires CountAsks(trace, ForcedAnswer) == 0
    requires IsAsk(e, ForcedAnswer) ==> CountAsks(trace, FineAnswer) == 5
    ensures forall i :: 0 <= i < |trace + [e]| && IsAsk((trace + [e])[i], ForcedAnswer) ==>
      i == |trace| && CountAsks(trace + [e], FineAnswer) == 5
  {
    var t := trace + [e];
    CountAsksExtend(trace, e, FineAnswer);
    NoneCounted(trace, ForcedAnswer);
    assert forall i :: 0 <= i < |trace| ==> t[i] == trace[i];
  }

  /** A search step that settles nothing keeps the session running. */
  lemma KeepRunning(trace: seq<Event>, e: Event, s: Session, filtered: seq<Entry>)
    requires |trace| > 1 || (|trace| == 1 && Ordinal.ContainsOrdinalNumber(s.question))
    requires Running(trace, s, filtered)
    requires WellFormed(trace + [e], s) && Verdict(e, s).None?
    requires !IsAsk(e, CoarseAnswer) && !IsAsk(e, TypeJudge) && !IsAsk(e, ForcedAnswer)
    requires IsAsk(e, Nominate) || IsAsk(e, FineAnswer) ==> e.view == filtered
    ensures Running(trace + [e], s, filtered)
  {
    var t := trace + [e];
    JudgeStays(trace, e, s);
    SearchStillSees(trace, e, filtered);
    CountAsksExtend(trace, e, ForcedAnswer);
    assert t[..|trace|] == trace;
  }

  /** A step that settles the outcome finishes the session. */
  lemma Stop(trace: seq<Event>, e: Event, s: Session, filtered: seq<Entry>, outcome: Outcome)
    requires |trace| > 1 || (|trace| == 1 && Ordinal.ContainsOrdinalNumber(s.question))
    requires Running(trace, s, filtered)
    requires WellFormed(trace + [e], s) && Verdict(e, s) == Some(outcome)
    requires !IsAsk(e, CoarseAnswer) && !IsAsk(e, TypeJudge)
    requires IsAsk(e, Nominate) || IsAsk(e, FineAnswer) ==> e.view == filtered
    requires CountAsks(trace + [e], Nominate) <= 5 && CountAsks(trace + [e], FineAnswer) <= 5
    requires IsAsk(e, ForcedAnswer) ==> CountAsks(trace, FineAnswer) == 5
    ensures Finished(trace + [e], s, outcome)
  {
    var t := trace + [e];
    JudgeStays(trace, e, s);
    SearchStillSees(trace, e, filtered);
    ForcedOnlyLast(trace, e);
    assert t[..|t| - 1] == trace;
    assert t[|t| - 1] == e;
  }

  /** Nothing has been stored after a trace of prompts only. */
  lemma NothingSearched(trace: seq<Event>, cfg: Config)
    requires forall i :: 0 <= i < |trace| ==> trace[i].Asked?
    ensures HistoryOf(trace, false, cfg) == Hist([], [], []) && HistoryOf(trace, true, cfg) == Hist([], [], [])
  {
    if trace != [] {
      NothingSearched(trace[..|trace| - 1], cfg);
    }
  }

  /** In a trace undecided up to its last event, only the last event can
      settle the outcome. */
  lemma SettledOnlyLast(trace: seq<Event>, s: Session, i: nat)
    requires i < |trace| && Undecided(trace[..|trace| - 1], s) && Verdict(trace[i], s).Some?
    ensures i == |trace| - 1
  {
    var n := |trace| - 1;
    UndecidedEvents(trace[..n], s);
    assert forall j :: 0 <= j < n ==> trace[..n][j] == trace[j];
  }

  /** A reply that does not parse ends the session, which returns None. */
  lemma ParseFailureEnds(trace: seq<Event>, s: Session, outcome: Outcome, i: nat)
    requires Finished(trace, s, outcome)
    requires i < |trace| && trace[i].Asked? && trace[i].parsed.None?
    ensures i == |trace| - 1 && outcome == NoAnswer
  {
    SettledOnlyLast(trace, s, i);
  }

  /** A confident coarse answer is returned at once: nothing else is asked
      and both histories stay empty. */
  lemma ConfidentCoarseEnds(trace: seq<Event>, s: Session, outcome: Outcome)
    requires Finished(trace, s, outcome)
    requires trace[0].parsed.Some? && "Confidence" in trace[0].parsed.value
    requires Truthy(trace[0].parsed.value["Confidence"])
    ensures |trace| == 1 && outcome == AnswerOf(trace[0].parsed.value)
    ensures HistoryOf(trace, false, s.cfg) == Hist([], [], []) && HistoryOf(trace, true, s.cfg) == Hist([], [], [])
  {
    SettledOnlyLast(trace, s, 0);
    NothingSearched(trace, s.cfg);
  }

  /** Every nomination and fine answer prompt lists the coarse memory as
      routed: the whole list for an ordinal question or an unset `Flag`,
      else the entries the period filter keeps around the judge's periods. */
  lemma SearchViewByRoute(trace: seq<Event>, s: Session, outcome: Outcome, i: nat)
    requires Finished(trace, s, outcome)
    requires i < |trace| && (IsAsk(trace[i], Nominate) || IsAsk(trace[i], FineAnswer))
    ensures Ordinal.ContainsOrdinalNumber(s.question) ==> trace[i].view == s.coarse
    ensures !Ordinal.ContainsOrdinalNumber(s.question) ==>
      && |s.coarse| > 0 && IsAsk(trace[1], TypeJudge)
      && trace[1].parsed.Some? && Routes(trace[1].parsed.value)
      && trace[i].view ==
           if Truthy(trace[1].parsed.value["Flag"])
           then PeriodFilter.Keep(s.coarse, PeriodFilter.AllWindows(s.coarse,
                  AsPeriods(trace[1].parsed.value["Time Period"]).value, s.cfg.overlap))
           else s.coarse
  {
    RouteSeen(trace, s, i);
  }

  /** `SearchViewByRoute` from the parts of `Finished` it needs. */
  lemma RouteSeen(trace: seq<Event>, s: Session, i: nat)
    requires |trace| > 0 && JudgePlaced(trace, s) && Undecided(trace[..|trace| - 1], s)
    requires SearchSees(trace, RoutedView(trace, s))
    requires i < |trace| && (IsAsk(trace[i], Nominate) || IsAsk(trace[i], FineAnswer))
    ensures Ordinal.ContainsOrdinalNumber(s.question) ==> trace[i].view == s.coarse
    ensures !Ordinal.ContainsOrdinalNumber(s.question) ==>
      && |s.coarse| > 0 && IsAsk(trace[1], TypeJudge)
      && trace[1].parsed.Some? && Routes(trace[1].parsed.value)
      && trace[i].view ==
           if Truthy(trace[1].parsed.value["Flag"])
           then PeriodFilter.Keep(s.coarse, PeriodFilter.AllWindows(s.coarse,
                  AsPeriods(trace[1].parsed.value["Time Period"]).value, s.cfg.overlap))
           else s.coarse
  {
    var n := |trace| - 1;
    UndecidedEvents(trace[..n], s);
    if !Ordinal.ContainsOrdinalNumber(s.question) {
      assert 1 < i <= n;
      assert trace[..n][1] == trace[1];
    }
  }

  /** Two prompts of the same kind sent after the same events and built
      from the same view are the same prompt. */
  lemma PromptDetermined(prior: seq<Event>, kind: Kind, view: seq<Entry>, p1: Prompt, p2: Prompt, s: Session)
    requires PromptOk(prior, kind, view, p1, s) && PromptOk(prior, kind, view, p2, s)
    ensures p1 == p2
  {
    var fine := HistoryOf(prior, false, s.cfg);
    var superFine := HistoryOf(prior, true, s.cfg);
    match kind
    case CoarseAnswer =>
      ListingDetermined(view, NoLayers, p1.items, p2.items);
    case TypeJudge =>
      ListingDetermined(view, NoLayers, p1.items, p2.items);
    case Nominate =>
      ListingDetermined(MergedOf(view, fine), Layers(Keys(fine.entire), fine.divided, [], [], []),
                        p1.items, p2.items);
    case FineAnswer =>
      ListingDetermined(MergedOf(view, fine),
        Layers(Keys(fine.entire), fine.divided, Keys(superFine.entire), superFine.entire, superFine.divided),
        p1.items, p2.items);
    case ForcedAnswer =>
      ListingDetermined(MergedOf(view, fine),
        Layers(Keys(fine.entire), fine.divided, Keys(superFine.entire), superFine.entire, superFine.divided),
        p1.items, p2.items);
  }

  /** The events before it and the inputs determine the next event. */
  lemma EventDetermined(prior: seq<Event>, e1: Event, e2: Event, s: Session)
    requires EventOk(prior, e1, s) && EventOk(prior, e2, s)
    ensures e1 == e2
  {
    if e1.Asked? && e2.Asked? {
      PromptDetermined(prior, e1.kind, e1.view, e1.prompt, e2.prompt, s);
    }
  }

  /** Two traces whose events are each what the inputs make them agree on
      their common prefix. */
  lemma {:induction false} SamePrefix(t1: seq<Event>, t2: seq<Event>, s: Session, k: nat)
    requires forall i {:trigger EventOk(t1[..i], t1[i], s)} :: 0 <= i < |t1| ==> EventOk(t1[..i], t1[i], s)
    requires forall i {:trigger EventOk(t2[..i], t2[i], s)} :: 0 <= i < |t2| ==> EventOk(t2[..i], t2[i], s)
    requires k <= |t1| && k <= |t2|
    ensures t1[..k] == t2[..k]
  {
    if k > 0 {
      SamePrefix(t1, t2, s, k - 1);
      assert EventOk(t1[..k - 1], t1[k - 1], s) && EventOk(t2[..k - 1], t2[k - 1], s);
      EventDetermined(t1[..k - 1], t1[k - 1], t2[k - 1], s);
      assert t1[..k] == t1[..k - 1] + [t1[k - 1]];
      assert t2[..k] == t2[..k - 1] + [t2[k - 1]];
    }
  }

  /** Two traces that each stop at their first settling event, and whose
      events are what the inputs make them, are the same trace. */
  lemma SameTrace(t1: seq<Event>, t2: seq<Event>, s: Session)
    requires |t1| > 0 && |t2| > 0
    requires forall i {:trigger EventOk(t1[..i], t1[i], s)} :: 0 <= i < |t1| ==> EventOk(t1[..i], t1[i], s)
    requires forall i {:trigger EventOk(t2[..i], t2[i], s)} :: 0 <= i < |t2| ==> EventOk(t2[..i], t2[i], s)
    requires Undecided(t1[..|t1| - 1], s) && Verdict(t1[|t1| - 1], s).Some?
    requires Undecided(t2[..|t2| - 1], s) && Verdict(t2[|t2| - 1], s).Some?
    ensures t1 == t2
  {
    var m := if |t1| <= |t2| then |t1| else |t2|;
    SamePrefix(t1, t2, s, m);
    assert t1[m - 1] == t1[..m][m - 1] == t2[..m][m - 1] == t2[m - 1];
    SettledOnlyLast(t1, s, m - 1);
    SettledOnlyLast(t2, s, m - 1);
    assert t1 == t1[..m] && t2 == t2[..m];
  }

  /** A session finishes in one way only: the inputs determine the whole
      trace and the outcome. */
  lemma Determined(t1: seq<Event>, t2: seq<Event>, s: Session, o1: Outcome, o2: Outcome)
    requires Finished(t1, s, o1) && Finished(t2, s, o2)
    ensures t1 == t2 && o1 == o2
  {
    WellFormedEvents(t1, s);
    WellFormedEvents(t2, s);
    SameTrace(t1, t2, s);
  }

  /** Every prompt of a finished session is built from the view its kind
      calls for and from the memory the events before it left behind. */
  lemma PromptsShowMemory(trace: seq<Event>, s: Session, outcome: Outcome, i: nat)
    requires Finished(trace, s, outcome)
    requires i < |trace| && trace[i].Asked?
    ensures NextStep(trace[..i], s) == AskStep(trace[i].kind)
    ensures trace[i].view == ViewFor(trace[..i], trace[i].kind, s)
    ensures PromptOk(trace[..i], trace[i].kind, trace[i].view, trace[i].prompt, s)
  {
    WellFormedEvents(trace, s);
    assert EventOk(trace[..i], trace[i], s);
  }

  /** Send `prompt` as the next event and evaluate the reply. */
  method Consult(trace: seq<Event>, kind: Kind, view: seq<Entry>, prompt: Prompt, s: Session)
    returns (next: seq<Event>, d: Option<Dict>)
    ensures next == trace + [Asked(kind, view, prompt, s.ask(|trace|, prompt), d)]
    ensures d == s.evaluate(s.ask(|trace|, prompt))
  {
    var reply := s.ask(|trace|, prompt);
    d := s.evaluate(reply);
    next := trace + [Asked(kind, view, prompt, reply, d)];
  }

  /** `next` is `trace` followed by one prompt of `kind`, built from `view`,
      whose reply evaluated to `d`, as the inputs make it. */
  predicate Appended(trace: seq<Event>, next: seq<Event>, kind: Kind, view: seq<Entry>, d: Option<Dict>, s: Session) {
    && |next| == |trace| + 1 && next[..|trace|] == trace
    && IsAsk(next[|trace|], kind) && next[|trace|].view == view && next[|trace|].parsed == d
    && EventOk(trace, next[|trace|], s)
  }

  lemma OneMore(trace: seq<Event>, next: seq<Event>)
    requires |next| == |trace| + 1 && next[..|trace|] == trace
    ensures next == trace + [next[|trace|]]
  {
  }

  /** Ask for an answer from the coarse memory alone. */
  method AskCoarse(s: Session) returns (next: seq<Event>, d: Option<Dict>)
    ensures Appended([], next, CoarseAnswer, s.coarse, d, s)
  {
    var p := AnswerWithCoarseMemoryPrompt(s.coarse, s.question, []);
    next, d := Consult([], CoarseAnswer, s.coarse, p, s);
    assert next[..0] == [];
  }

  /** Ask the judge whether the question is about particular periods. */
  method AskJudge(s: Session, trace: seq<Event>) returns (next: seq<Event>, d: Option<Dict>)
    requires NextStep(trace, s) == AskStep(TypeJudge)
    ensures Appended(trace, next, TypeJudge, s.coarse, d, s)
  {
    var p := QuestionTypeJudgePrompt(s.coarse, s.question, []);
    next, d := Consult(trace, TypeJudge, s.coarse, p, s);
    assert next[..|trace|] == trace;
  }

  /** The judge's routing, computed by the period filter. */
  method Route(s: Session, d: Dict) returns (filtered: seq<Entry>)
    requires |s.coarse| > 0 && Routes(d)
    ensures filtered == Routing(d, s.coarse, s.cfg.overlap).value
  {
    filtered := s.coarse;
    if Truthy(d["Flag"]) {
      var related := AsPeriods(d["Time Period"]).value;
      var kept, _, _ := PeriodFilter.FilterCoarseMemory(s.coarse, related, s.cfg.overlap);
      filtered := kept;
    }
  }

  /** The histories hold what the trace stored in them. */
  predicate Holds(trace: seq<Event>, s: Session, fine: MemoryHistory, superFine: MemoryHistory)
    reads fine, superFine
  {
    && fine.State() == HistoryOf(trace, false, s.cfg)
    && superFine.State() == HistoryOf(trace, true, s.cfg)
  }

  /** Ask for the next period to search, excluding those searched so far. */
  method AskNomination(s: Session, filtered: seq<Entry>, duration: int, fine: MemoryHistory,
                       superFine: MemoryHistory, trace: seq<Event>)
    returns (next: seq<Event>, d: Option<Dict>)
    requires fine.Valid() && superFine.Valid() && NonEmptyRuns(fine.entire)
    requires Holds(trace, s, fine, superFine)
    requires NextStep(trace, s) == AskStep(Nominate)
    requires filtered == RoutedView(trace, s) && duration == Duration(s)
    ensures Appended(trace, next, Nominate, filtered, d, s)
  {
    var p := GetSingleRelatedTimePrompt(filtered, fine.entire, fine.divided, s.question, [],
                                        fine.periods + superFine.periods, duration);
    next, d := Consult(trace, Nominate, filtered, p, s);
    assert next[..|trace|] == trace;
  }

  /** Ask for an answer from the coarse and the refined memory. */
  method AskFine(s: Session, filtered: seq<Entry>, duration: int, fine: MemoryHistory,
                 superFine: MemoryHistory, trace: seq<Event>)
    returns (next: seq<Event>, d: Option<Dict>)
    requires fine.Valid() && superFine.Valid()
    requires NonEmptyRuns(fine.entire) && NonEmptyRuns(superFine.entire)
    requires Holds(trace, s, fine, superFine)
    requires NextStep(trace, s) == AskStep(FineAnswer)
    requires filtered == RoutedView(trace, s) && duration == Duration(s)
    ensures Appended(trace, next, FineAnswer, filtered, d, s)
  {
    var p := AnswerWithCoarseAndFineMemoryPrompt(filtered, fine.entire, fine.divided,
                                                 superFine.entire, superFine.divided, s.question, [], duration);
    next, d := Consult(trace, FineAnswer, filtered, p, s);
    assert next[..|trace|] == trace;
  }

  /** Demand an answer from the whole coarse memory and the refined one. */
  method AskForced(s: Session, duration: int, fine: MemoryHistory, superFine: MemoryHistory, trace: seq<Event>)
    returns (next: seq<Event>, d: Option<Dict>)
    requires fine.Valid() && superFine.Valid()
    requires NonEmptyRuns(fine.entire) && NonEmptyRuns(superFine.entire)
    requires Holds(trace, s, fine, superFine)
    requires NextStep(trace, s) == AskStep(ForcedAnswer) && duration == Duration(s)
    ensures Appended(trace, next, ForcedAnswer, s.coarse, d, s)
  {
    var p := MustAnswerWithCoarseAndFineMemoryPrompt(s.coarse, fine.entire, fine.divided,
                                                     superFine.entire, superFine.divided, s.question, [], duration);
    next, d := Consult(trace, ForcedAnswer, s.coarse, p, s);
    assert next[..|trace|] == trace;
  }

  /** Caption the nominated period whole and divided, with the sampling its
      grain calls for, and append the result. */
  method Caption(s: Session, period: Period, instruction: string, trace: seq<Event>)
    returns (next: seq<Event>, entire: seq<Entry>, divided: seq<Entry>)
    requires |trace| > 0 && NominationOf(trace[|trace| - 1], period, instruction)
    ensures |next| == |trace| + 1 && next[..|trace|] == trace
    ensures next[|trace|].Extracted? && next[|trace|].period == period
      && next[|trace|].entire == entire && next[|trace|].divided == divided
    ensures EventOk(trace, next[|trace|], s)
  {
    var isSuper := period.end - period.start == s.cfg.minimalDuration;
    var entireSampling;
    if !isSuper {
      entireSampling := Sampling(s.cfg.samplingFps, s.cfg.shortVideoFrames);
    } else {
      entireSampling := Sampling(2, 2 * s.cfg.minimalDuration);
    }
    entire := s.extract(period, Entire, entireSampling, instruction);
    var dividedSampling;
    if !isSuper {
      dividedSampling := Sampling(2, 2 * s.cfg.minimalDuration);
    } else {
      dividedSampling := Sampling(2, 2);
    }
    divided := s.extract(period, Divided, dividedSampling, instruction);
    next := trace + [Extracted(period, instruction, entireSampling, dividedSampling, entire, divided)];
    assert next[..|trace|] == trace;
  }

  /** The facts about the trace right after the judge was asked. */
  lemma AfterJudge(s: Session, trace: seq<Event>, next: seq<Event>)
    requires |s.coarse| > 0 && !Ordinal.ContainsOrdinalNumber(s.question)
    requires |trace| == 1 && WellFormed(trace, s) && IsAsk(trace[0], CoarseAnswer) && Verdict(trace[0], s).None?
    requires |next| == 2 && next[..1] == trace && IsAsk(next[1], TypeJudge) && EventOk(trace, next[1], s)
    ensures WellFormed(next, s) && JudgePlaced(next, s) && Undecided(next[..1], s)
    ensures SearchSees(next, RoutedView(next, s))
    ensures CountAsks(next, Nominate) == 0 && CountAsks(next, FineAnswer) == 0
    ensures CountAsks(next, ForcedAnswer) == 0
    ensures forall i :: 0 <= i < |next| ==> !IsAsk(next[i], ForcedAnswer)
    ensures NextStep(next, s) == AskStep(Nominate)
    ensures HistoryOf(next, false, s.cfg) == Hist([], [], []) && HistoryOf(next, true, s.cfg) == Hist([], [], [])
  {
    OneMore(trace, next);
    ExtendWellFormed(trace, next[1], s);
    assert trace[..0] == [];
    CountAsksExtend([], trace[0], Nominate);
    CountAsksExtend([], trace[0], FineAnswer);
    CountAsksExtend([], trace[0], ForcedAnswer);
    CountAsksExtend(trace, next[1], Nominate);
    CountAsksExtend(trace, next[1], FineAnswer);
    CountAsksExtend(trace, next[1], ForcedAnswer);
    NothingSearched(next, s.cfg);
  }

  /** The judge's step of the opening, after an unconfident coarse answer
      to a question without an ordinal word. */
  method JudgeStep(s: Session, trace: seq<Event>) returns (stop: Option<Outcome>, next: seq<Event>, filtered: seq<Entry>)
    requires |s.coarse| > 0 && !Ordinal.ContainsOrdinalNumber(s.question)
    requires |trace| == 1 && WellFormed(trace, s) && IsAsk(trace[0], CoarseAnswer) && Verdict(trace[0], s).None?
    ensures stop.Some? ==> Finished(next, s, stop.value)
    ensures stop.None? ==>
      && Running(next, s, filtered) && |next| > 1 && NextStep(next, s) == AskStep(Nominate)
      && CountAsks(next, Nominate) == 0 && CountAsks(next, FineAnswer) == 0
      && HistoryOf(next, false, s.cfg) == Hist([], [], []) && HistoryOf(next, true, s.cfg) == Hist([], [], [])
  {
    var d;
    next, d := AskJudge(s, trace);
    AfterJudge(s, trace, next);
    assert next[..|next| - 1] == trace && next[|next| - 1] == next[1];
    if d.None? || !Routes(d.value) {
      stop := Some(if d.None? then NoAnswer else Raised);
      filtered := s.coarse;
      return;
    }
    filtered := Route(s, d.value);
    stop := None;
  }

  /** The opening of `demo_infer`: the answer from the coarse memory and, for
      a question without an ordinal word, the judge's routing. It either
      finishes the session or hands the search loop the routed coarse list. */
  method Opening(s: Session) returns (stop: Option<Outcome>, trace: seq<Event>, filtered: seq<Entry>)
    ensures stop.Some? ==> Finished(trace, s, stop.value)
    ensures stop.None? ==>
      && |s.coarse| > 0 && Running(trace, s, filtered) && NextStep(trace, s) == AskStep(Nominate)
      && (|trace| > 1 || (|trace| == 1 && Ordinal.ContainsOrdinalNumber(s.question)))
      && CountAsks(trace, Nominate) == 0 && CountAsks(trace, FineAnswer) == 0
      && HistoryOf(trace, false, s.cfg) == Hist([], [], []) && HistoryOf(trace, true, s.cfg) == Hist([], [], [])
  {
    var d;
    trace, d := AskCoarse(s);
    filtered := s.coarse;
    ExtendWellFormed([], trace[0], s);
    assert [] + [trace[0]] == trace;
    CountAsksExtend([], trace[0], Nominate);
    CountAsksExtend([], trace[0], FineAnswer);
    CountAsksExtend([], trace[0], ForcedAnswer);
    assert trace[..0] == [];
    if d.None? || "Confidence" !in d.value || Truthy(d.value["Confidence"]) || |s.coarse| == 0 {
      stop := Some(if d.None? then NoAnswer else if "Confidence" !in d.value then Raised
                   else if Truthy(d.value["Confidence"]) then AnswerOf(d.value) else Raised);
      return;
    }
    if Ordinal.ContainsOrdinalNumber(s.question) {
      NothingSearched(trace, s.cfg);
      return None, trace, filtered;
    }
    stop, trace, filtered := JudgeStep(s, trace);
  }

  /** Store a caption pass in the history of its grain, by insert-or-replace;
      the other history is left as it was. */
  method Record(s: Session, fine: MemoryHistory, superFine: MemoryHistory, period: Period,
                entire: seq<Entry>, divided: seq<Entry>, ghost trace: seq<Event>, ghost e: Event)
    requires fine != superFine && fine.Valid() && superFine.Valid()
    requires Holds(trace, s, fine, superFine)
    requires NonEmptyRuns(fine.entire) && NonEmptyRuns(superFine.entire)
    requires e.Extracted? && e.period == period && e.entire == entire && e.divided == divided
    modifies fine, superFine
    ensures fine.Valid() && superFine.Valid()
    ensures Holds(trace + [e], s, fine, superFine)
    ensures IsSuperFine(period, s.cfg) ==>
      superFine.State() == Put(old(superFine.State()), period, entire, divided) && unchanged(fine)
    ensures !IsSuperFine(period, s.cfg) ==>
      fine.State() == Put(old(fine.State()), period, entire, divided) && unchanged(superFine)
    ensures entire != [] ==> NonEmptyRuns(fine.entire) && NonEmptyRuns(superFine.entire)
  {
    HistoryStep(trace, e, false, s.cfg);
    HistoryStep(trace, e, true, s.cfg);
    if period.end - period.start == s.cfg.minimalDuration {
      superFine.Store(period, entire, divided);
    } else {
      fine.Store(period, entire, divided);
    }
  }

  /** Caption the nominated period and store the captions in the history
      of its grain. An empty entire run ends the session. */
  method Capture(s: Session, filtered: seq<Entry>, fine: MemoryHistory, superFine: MemoryHistory,
                 trace: seq<Event>, period: Period, instruction: string, ghost round: nat)
    returns (next: seq<Event>, stop: Option<Outcome>)
    requires round < 5
    requires fine != superFine && fine.Valid() && superFine.Valid()
    requires Holds(trace, s, fine, superFine)
    requires NonEmptyRuns(fine.entire) && NonEmptyRuns(superFine.entire)
    requires |trace| > 1 && Running(trace, s, filtered)
    requires NominationOf(trace[|trace| - 1], period, instruction)
    requires CountAsks(trace, Nominate) == round + 1 && CountAsks(trace, FineAnswer) == round
    modifies fine, superFine
    ensures stop.Some? ==> Finished(next, s, stop.value)
    ensures stop.None? ==>
      && fine.Valid() && superFine.Valid() && Holds(next, s, fine, superFine)
      && NonEmptyRuns(fine.entire) && NonEmptyRuns(superFine.entire)
      && |next| > 1 && Running(next, s, filtered) && NextStep(next, s) == AskStep(FineAnswer)
      && CountAsks(next, Nominate) == round + 1 && CountAsks(next, FineAnswer) == round
  {
    var entire, divided;
    next, entire, divided := Caption(s, period, instruction, trace);
    ghost var e := next[|trace|];
    OneMore(trace, next);
    ExtendWellFormed(trace, e, s);
    CountAsksExtend(trace, e, Nominate);
    CountAsksExtend(trace, e, FineAnswer);
    Record(s, fine, superFine, period, entire, divided, trace, e);
    if entire == [] {
      stop := Some(Raised);
      Stop(trace, e, s, filtered, Raised);
      return;
    }
    KeepRunning(trace, e, s, filtered);
    stop := None;
  }

  /** The second half of a round: caption the nominated period, store the
      captions, and ask again with the refined memory. */
  method Refine(s: Session, filtered: seq<Entry>, duration: int, fine: MemoryHistory,
                superFine: MemoryHistory, trace: seq<Event>, period: Period, instruction: string,
                ghost round: nat)
    returns (next: seq<Event>, stop: Option<Outcome>)
    requires round < 5 && duration == Duration(s)
    requires fine != superFine && fine.Valid() && superFine.Valid()
    requires Holds(trace, s, fine, superFine)
    requires NonEmptyRuns(fine.entire) && NonEmptyRuns(superFine.entire)
    requires |trace| > 1 && Running(trace, s, filtered)
    requires NominationOf(trace[|trace| - 1], period, instruction)
    requires CountAsks(trace, Nominate) == round + 1 && CountAsks(trace, FineAnswer) == round
    modifies fine, superFine
    ensures stop.Some? ==> Finished(next, s, stop.value)
    ensures stop.None? ==>
      && fine.Valid() && superFine.Valid() && Holds(next, s, fine, superFine)
      && NonEmptyRuns(fine.entire) && NonEmptyRuns(superFine.entire)
      && |next| > 1 && Running(next, s, filtered)
      && NextStep(next, s) == (if round + 1 < 5 then AskStep(Nominate) else AskStep(ForcedAnswer))
      && CountAsks(next, Nominate) == round + 1 && CountAsks(next, FineAnswer) == round + 1
  {
    next, stop := Capture(s, filtered, fine, superFine, trace, period, instruction, round);
    if stop.Some? {
      return;
    }
    ghost var before := next;
    var d;
    next, d := AskFine(s, filtered, duration, fine, superFine, next);
    ghost var e := next[|before|];
    OneMore(before, next);
    ExtendWellFormed(before, e, s);
    CountAsksExtend(before, e, Nominate);
    CountAsksExtend(before, e, FineAnswer);
    HistoryStep(before, e, false, s.cfg);
    HistoryStep(before, e, true, s.cfg);
    if d.None? || "Confidence" !in d.value || Truthy(d.value["Confidence"]) {
      stop := Some(if d.None? then NoAnswer else if "Confidence" !in d.value then Raised else AnswerOf(d.value));
      Stop(before, e, s, filtered, stop.value);
      return;
    }
    KeepRunning(before, e, s, filtered);
    stop := None;
  }

  /** One round of the search loop: nominate a period, then refine the
      memory with it. A nomination without a usable period or instruction,
      or with a period the frame reader refuses, ends the session. */
  method SearchRound(s: Session, filtered: seq<Entry>, duration: int, fine: MemoryHistory,
                     superFine: MemoryHistory, trace: seq<Event>, ghost round: nat)
    returns (next: seq<Event>, stop: Option<Outcome>)
    requires round < 5 && duration == Duration(s)
    requires fine != superFine && fine.Valid() && superFine.Valid()
    requires Holds(trace, s, fine, superFine)
    requires NonEmptyRuns(fine.entire) && NonEmptyRuns(superFine.entire)
    requires |trace| > 1 || (|trace| == 1 && Ordinal.ContainsOrdinalNumber(s.question))
    requires Running(trace, s, filtered) && NextStep(trace, s) == AskStep(Nominate)
    requires CountAsks(trace, Nominate) == round && CountAsks(trace, FineAnswer) == round
    modifies fine, superFine
    ensures stop.Some? ==> Finished(next, s, stop.value)
    ensures stop.None? ==>
      && fine.Valid() && superFine.Valid() && Holds(next, s, fine, superFine)
      && NonEmptyRuns(fine.entire) && NonEmptyRuns(superFine.entire)
      && |next| > 1 && Running(next, s, filtered)
      && NextStep(next, s) == (if round + 1 < 5 then AskStep(Nominate) else AskStep(ForcedAnswer))
      && CountAsks(next, Nominate) == round + 1 && CountAsks(next, FineAnswer) == round + 1
  {
    var d;
    next, d := AskNomination(s, filtered, duration, fine, superFine, trace);
    ghost var e := next[|trace|];
    OneMore(trace, next);
    ExtendWellFormed(trace, e, s);
    CountAsksExtend(trace, e, Nominate);
    CountAsksExtend(trace, e, FineAnswer);
    HistoryStep(trace, e, false, s.cfg);
    HistoryStep(trace, e, true, s.cfg);
    if d.None? || "Time Period" !in d.value || Nominated(d.value["Time Period"]).None?
       || "Instruction" !in d.value || !d.value["Instruction"].Str?
       || !CaptionAccepted(Nominated(d.value["Time Period"]).value, s.cfg) {
      stop := Some(if d.None? then NoAnswer else Raised);
      Stop(trace, e, s, filtered, stop.value);
      return;
    }
    KeepRunning(trace, e, s, filtered);
    var period := Nominated(d.value["Time Period"]).value;
    var instruction := d.value["Instruction"].s;
    next, stop := Refine(s, filtered, duration, fine, superFine, next, period, instruction, round);
  }

  /** Python's `demo_infer`. */
  method DemoInfer(s: Session) returns (outcome: Outcome, trace: seq<Event>)
    ensures Finished(trace, s, outcome)
  {
    var stop, filtered;
    stop, trace, filtered := Opening(s);
    if stop.Some? {
      return stop.value, trace;
    }
    var duration := s.coarse[|s.coarse| - 1].period.end - s.coarse[0].period.start;
    var fine := new MemoryHistory();
    var superFine := new MemoryHistory();
    var round := 0;
    while round < 5
      invariant 0 <= round <= 5 && duration == Duration(s)
      invariant fine != superFine && fine.Valid() && superFine.Valid()
      invariant Holds(trace, s, fine, superFine)
      invariant NonEmptyRuns(fine.entire) && NonEmptyRuns(superFine.entire)
      invariant |trace| > 1 || (|trace| == 1 && Ordinal.ContainsOrdinalNumber(s.question))
      invariant Running(trace, s, filtered)
      invariant NextStep(trace, s) == (if round < 5 then AskStep(Nominate) else AskStep(ForcedAnswer))
      invariant CountAsks(trace, Nominate) == round && CountAsks(trace, FineAnswer) == round
    {
      trace, stop := SearchRound(s, filtered, duration, fine, superFine, trace, round);
      if stop.Some? {
        return stop.value, trace;
      }
      round := round + 1;
    }

    ghost var before := trace;
    var d;
    trace, d := AskForced(s, duration, fine, superFine, trace);
    OneMore(before, trace);
    ExtendWellFormed(before, trace[|before|], s);
    CountAsksExtend(before, trace[|before|], Nominate);
    CountAsksExtend(before, trace[|before|], FineAnswer);
    outcome := if d.None? then NoAnswer else AnswerOf(d.value);
    Stop(before, trace[|before|], s, filtered, outcome);
  }

  /** `demo_infer` with its reply evaluator: every reply is read by
      `parse_answer`, with `literal` standing for `ast.literal_eval`. */
  method Infer(question: string, coarse: seq<Entry>, cfg: Config, ask: (nat, Prompt) -> string,
               literal: string -> Option<Dict>, extract: (Period, Split, Sampling, string) -> seq<Entry>)
    returns (outcome: Outcome, trace: seq<Event>, s: Session)
    ensures s.question == question && s.coarse == coarse && s.cfg == cfg
    ensures s.ask == ask && s.extract == extract
    ensures forall reply :: s.evaluate(reply) == AnswerParser.ParseAnswer(reply, literal)
    ensures Finished(trace, s, outcome)
  {
    s := Session(question, coarse, cfg, ask, reply => AnswerParser.ParseAnswer(reply, literal), extract);
    outcome, trace := DemoInfer(s);
  }
}
