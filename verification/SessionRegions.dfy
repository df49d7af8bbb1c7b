/**
 Sessions of a Flow: what a session runs for an event is the region that the
 Flow's trigger plans, executed by the region runner.
 */
module SessionRegions {
  import opened SessionTypes
  import opened SessionDisk
  import opened SessionAtomic
  import opened SessionRuns
  import opened SessionHistory
  import opened SessionTheorems
  import opened SessionDrain
  import Course = RegionCourse
  import Outputs = RegionOutputs
  import Planner = RegionPlanner
  import Thread = RegionThread

  /** A Flow as sessions run it: which trigger an event kind has, and how nodes behave on an event. */
  datatype FlowSpec = FlowSpec(
    compiled: Planner.Compiled,
    triggers: string -> Option<Planner.Trigger>,
    behaviour: Event -> Thread.Behaviour,
    message: Thread.Failure -> string)

  const REFUSED := "session trigger region is not supported"

  /** What a session makes of the answer of the region runner. */
  function OutcomeOf(f: FlowSpec, answer: Course.Answer): Outcome {
    match answer
    case Idle => Outcome.Finished(None, [])
    case Refused => Failed(REFUSED)
    case Stopped(failure) => Failed(f.message(failure))
    case Finished(state, _, _, outputs) => Outcome.Finished(Some(state), outputs)
  }

  /** The region function of a Flow. */
  ghost function RegionOf(f: FlowSpec): Region {
    (state: State, e: Event) =>
      OutcomeOf(f, Course.AnswerOf(f.compiled, f.triggers(e.kind), f.behaviour(e), e.correlation, state))
  }

  /**
   What a session runs for an event: nothing without a trigger, an error without a region or after a
   failure, and otherwise the state and outputs of the region, on the event's own behaviour and
   correlation.
   */
  lemma {:induction false} RegionMeans(f: FlowSpec, state: State, e: Event)
    ensures var trigger := f.triggers(e.kind);
            var answer := Course.AnswerOf(f.compiled, trigger, f.behaviour(e), e.correlation, state);
            var o := RegionOf(f)(state, e);
            && (answer.Idle? ==> o == Outcome.Finished(None, []))
            && (answer.Refused? ==> o.Failed?)
            && (answer.Stopped? ==> o == Failed(f.message(answer.failure)))
            && (answer.Finished? ==> o == Outcome.Finished(Some(answer.state), answer.outputs))
  {
    hide Course.AnswerOf;
  }

  lemma {:induction false} AnswerFits(c: Planner.Compiled, trigger: Option<Planner.Trigger>, b: Thread.Behaviour,
                                      correlation: string, state: State)
    ensures var answer := Course.AnswerOf(c, trigger, b, correlation, state);
            answer.Finished? ==> Fits(answer.outputs)
  {
    hide Course.PlanOf, Course.CourseOf, Course.OutputsOf, Fits, FitsLatest;
  }

  /** Whatever its nodes do, a Flow keeps the output limits. */
  lemma {:induction false} FlowsAreBounded(f: FlowSpec)
    ensures Bounded(RegionOf(f))
  {
    hide Course.AnswerOf, Fits;
    NothingFits();
    forall state: State, e: Event ensures Fits(OutputsOf(RegionOf(f)(state, e))) {
      AnswerFits(f.compiled, f.triggers(e.kind), f.behaviour(e), e.correlation, state);
    }
  }

  lemma NothingFits()
    ensures Fits([])
  {
  }

  /** Every reachable active session of every Flow can be drained, and ends in the state its pending events lead to. */
  lemma {:induction false} SessionsOfFlowsDrain(f: FlowSpec, steps: seq<Step>) returns (more: seq<Step>)
    requires SessionAfter(RegionOf(f), steps).status == Active
    ensures var s := SessionAfter(RegionOf(f), steps);
            var t := SessionAfter(RegionOf(f), steps + more);
            && s.processed <= |s.journal| && t.processed == |t.journal| && s.journal <= t.journal
            && t.state == FoldPending(RegionOf(f), s.state, s.journal[s.processed..])
  {
    hide RegionOf, Run, Bounded, FoldPending;
    FlowsAreBounded(f);
    more := DrainsInSomeRun(RegionOf(f), steps);
    DrainingCompletes(RegionOf(f), SessionAfter(RegionOf(f), steps));
  }
}
