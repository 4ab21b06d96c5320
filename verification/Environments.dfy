/**
Runs under given answers: an environment fixes what the executor answers to each call and which events the publisher
takes, and every step of a run it drives follows those answers.
*/
module Environments {
  import opened Text
  import opened WorkflowIR
  import opened DataContext
  import opened Machine
  import opened RunProperties

  /**
  The executor's answer to its n-th call, given capability and payload, and whether the publisher takes its n-th event.
  */
  datatype Environment = Environment(executor: (nat, string, string) -> ExecOutcome, publisher: nat -> bool)

  ghost function Calls(log: seq<Entry>): nat {
    if log == [] then 0 else Calls(log[..|log| - 1]) + if log[|log| - 1].Dispatched? then 1 else 0
  }

  lemma OneEntry(log: seq<Entry>, e: Entry)
    ensures Calls(log + [e]) == Calls(log) + if e.Dispatched? then 1 else 0
  {
    assert (log + [e])[..|log|] == log;
  }

  /** The choice is the environment's answer, wherever the environment is asked. */
  ghost predicate Given(env: Environment, ir: IR, w: World, c: Config, ch: Choice) {
    && (c.phase.Top? ==> ch.pubOk == env.publisher(|c.trace|))
    && (Call(ir, w, c).Some? ==> ch.exec == env.executor(Calls(c.log), Call(ir, w, c).value.0, Call(ir, w, c).value.1))
  }

  ghost predicate StepGiven(env: Environment, ir: IR, w: World, c: Config, c': Config) {
    !c.phase.Halted? && exists ch :: Legal(ir, c, ch) && Given(env, ir, w, c, ch) && c' == Next(ir, w, c, ch)
  }

  /** Every step of the run is the environment's doing. */
  ghost predicate Driven(env: Environment, ir: IR, w: World, run: seq<Config>) {
    forall i :: 0 <= i < |run| - 1 ==> StepGiven(env, ir, w, run[i], run[i + 1])
  }

  lemma DrivenExtends(env: Environment, ir: IR, w: World, run: seq<Config>, c: Config)
    requires run != [] && Driven(env, ir, w, run) && StepGiven(env, ir, w, Last(run), c)
    ensures Driven(env, ir, w, run + [c])
  {
    hide StepGiven;
    var r := run + [c];
    forall i | 0 <= i < |r| - 1
      ensures StepGiven(env, ir, w, r[i], r[i + 1])
    {
      if i < |run| - 1 {
        assert StepGiven(env, ir, w, run[i], run[i + 1]);
      }
    }
  }

  /** A dispatch answered by the environment is a step of the machine, to where the answer settles. */
  lemma Settles(env: Environment, ir: IR, w: World, c: Config, st: StateIR, payload: string, ch: Choice)
    requires c.phase.Acting? && FindState(ir.states, c.current) == Some(st)
    requires c.phase.next < |st.actions| && !st.actions[c.phase.next].async
    requires Resolvable(c.store, st.actions[c.phase.next].inputBindings)
    requires w.render(st.actions[c.phase.next].template,
      c.ctx + Resolved(c.store, st.actions[c.phase.next].inputBindings)) == Some(payload)
    requires ch.exec == env.executor(Calls(c.log), st.actions[c.phase.next].capability, payload)
    requires ch.exec.ExecOk? ==>
      FailsHonestly(c.current, st.actions[c.phase.next].outputBindings, ch.exec.result.payload, ch)
    ensures Legal(ir, c, ch) && Given(env, ir, w, c, ch)
    ensures var a := st.actions[c.phase.next];
      var asked := Dispatched(st.id, c.phase.next, Resolved(c.store, a.inputBindings), payload);
      Next(ir, w, c, ch) == Settle(c.(log := c.log + [asked]), st, a, c.phase.next, ch)
  {
    hide Resolvable, Resolved, FailsHonestly, Settle, Calls;
  }

  lemma SettlesAt(c: Config, st: StateIR, a: ActionIR, n: nat, ch: Choice)
    ensures var s := Settle(c, st, a, n, ch);
      && (ch.exec.ExecError? ==>
            s == Config(c.current, Halted(Failure(DispatchError(a.capability))), c.ctx, c.store,
              c.trace + [Failed(c.current)], c.log))
      && (ch.exec.ExecOk? && Writes(a.outputBindings, ch.exec.result.payload) ==>
            var vals := WrittenBy(a.outputBindings, ch.exec.result.payload);
            s == Config(c.current, Acting(n + 1, Some(ch.exec.result)), c.ctx, c.store + Keyed(st.id, vals), c.trace,
              c.log + [Wrote(st.id, ch.exec.result.payload, vals)]))
      && (ch.exec.ExecOk? && !Writes(a.outputBindings, ch.exec.result.payload) ==>
            s == Config(c.current, Halted(Failure(Data(ch.blame))), c.ctx, c.store + Keyed(st.id, ch.partial),
              c.trace + [Failed(c.current)],
                        c.log + [Wrote(st.id, ch.exec.result.payload, ch.partial)]))
  {
    hide Writes, WrittenBy, Keyed;
  }

  /** The write at `i` holds the environment's answer to the dispatch before it. */
  ghost predicate AnsweredBy(env: Environment, ir: IR, log: seq<Entry>, i: nat)
    requires i < |log| && log[i].Wrote?
  {
    && i > 0 && ActionOf(ir, log[i - 1]).Some?
    && var answer := env.executor(Calls(log[..i - 1]), ActionOf(ir, log[i - 1]).value.capability, log[i - 1].payload);
    && answer.ExecOk? && answer.result.payload == log[i].answer
  }

  ghost predicate AllAnswered(env: Environment, ir: IR, log: seq<Entry>) {
    forall i :: 0 <= i < |log| && log[i].Wrote? ==> AnsweredBy(env, ir, log, i)
  }

  lemma AnsweredStays(env: Environment, ir: IR, log: seq<Entry>, longer: seq<Entry>, i: nat)
    requires log <= longer && i < |log| && log[i].Wrote? && AnsweredBy(env, ir, log, i)
    ensures AnsweredBy(env, ir, longer, i)
  {
    hide ActionOf, Calls;
    assert longer[..i - 1] == log[..i - 1];
  }

  lemma AppendAnswered(env: Environment, ir: IR, log: seq<Entry>, d: Entry, tail: seq<Entry>)
    requires AllAnswered(env, ir, log) && d.Dispatched? && (tail == [] || (|tail| == 1 && tail[0].Wrote?))
    requires tail != [] ==>
      && ActionOf(ir, d).Some?
      && var answer := env.executor(Calls(log), ActionOf(ir, d).value.capability, d.payload);
      && answer.ExecOk? && answer.result.payload == tail[0].answer
    ensures AllAnswered(env, ir, log + [d] + tail)
  {
    hide ActionOf, Calls, AnsweredBy;
    var longer := log + [d] + tail;
    forall i | 0 <= i < |longer| && longer[i].Wrote?
      ensures AnsweredBy(env, ir, longer, i)
    {
      if i < |log| {
        AnsweredStays(env, ir, log, longer, i);
      } else {
        assert longer == log + [d] + [tail[0]] && i == |log| + 1;
        TailAnswered(env, ir, log, d, tail[0]);
      }
    }
  }

  lemma TailAnswered(env: Environment, ir: IR, log: seq<Entry>, d: Entry, e: Entry)
    requires e.Wrote? && d.Dispatched? && ActionOf(ir, d).Some?
    requires var answer := env.executor(Calls(log), ActionOf(ir, d).value.capability, d.payload);
      answer.ExecOk? && answer.result.payload == e.answer
    ensures AnsweredBy(env, ir, log + [d] + [e], |log| + 1)
  {
    hide ActionOf, Calls;
    assert (log + [d] + [e])[..|log|] == log;
  }

  lemma StepIsAnswered(env: Environment, ir: IR, w: World, c: Config, ch: Choice)
    requires !c.phase.Halted? && Given(env, ir, w, c, ch) && AllAnswered(env, ir, c.log)
    ensures AllAnswered(env, ir, Next(ir, w, c, ch).log)
  {
    hide AllAnswered, Resolvable, Resolved, Writes, WrittenBy, Keyed, Calls, FindState, Finish, Leave, Ids;
    var call := Call(ir, w, c);
    if call.Some? {
      var st := FindState(ir.states, c.current).value;
      FoundStateIsKnown(ir, c.current);
      var d := Dispatched(st.id, c.phase.next, Resolved(c.store, st.actions[c.phase.next].inputBindings), call.value.1);
      var log := Next(ir, w, c, ch).log;
      AppendAnswered(env, ir, c.log, d, if ch.exec.ExecOk? then [log[|log| - 1]] else []);
      assert log == c.log + [d] + if ch.exec.ExecOk? then [log[|log| - 1]] else [];
    } else {
      QuietStep(ir, w, c, ch);
    }
  }

  /**
  In an execution under an environment every value stored was taken from that environment's answer to the dispatch it
  follows.
  */
  lemma {:induction false} EveryWriteIsAnAnswer(env: Environment, ir: IR, w: World, run: seq<Config>)
    requires IsRun(ir, w, run) && Driven(env, ir, w, run)
    ensures AllAnswered(env, ir, Last(run).log)
    decreases |run|
  {
    hide Next, Legal, Given, AnsweredBy, Step;
    if |run| == 1 {
      assert Last(run).log == [] by { StartsEmpty(ir); }
    } else {
      RunPrefix(ir, w, run);
      var p := run[..|run| - 1];
      forall i | 0 <= i < |p| - 1
        ensures StepGiven(env, ir, w, p[i], p[i + 1])
      {
        assert StepGiven(env, ir, w, run[i], run[i + 1]);
      }
      EveryWriteIsAnAnswer(env, ir, w, p);
      assert StepGiven(env, ir, w, run[|run| - 2], run[|run| - 2 + 1]);
      var ch :| Legal(ir, Last(p), ch) && Given(env, ir, w, Last(p), ch) && Last(run) == Next(ir, w, Last(p), ch);
      StepIsAnswered(env, ir, w, Last(p), ch);
    }
  }

  lemma StartsEmpty(ir: IR)
    ensures Init(ir).log == []
  {
  }
}
