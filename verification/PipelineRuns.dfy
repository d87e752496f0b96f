/** Building runs of the pipeline: claims that hold at a start and that every step keeps hold at the end
    of every run. */
module PipelineRuns {
  import opened Pipeline

  datatype Claim = Claim(holds: State -> bool)

  ghost predicate Follows(l: Limits, s: State, a: Action, t: State) {
    Enabled(l, s, a) && t == Apply(l, s, a)
  }

  /** The claim holds at the start and every step keeps it. */
  ghost predicate Stable(l: Limits, start: State, c: Claim) {
    c.holds(start) && forall s, a, t :: Follows(l, s, a, t) && c.holds(s) ==> c.holds(t)
  }

  /** Some run leads from one state to the other. */
  ghost predicate Leads(l: Limits, start: State, s: State) {
    exists states, actions :: Run(l, states, actions, start.pages, start.urls) && states[0] == start
        && states[|actions|] == s
  }

  lemma Extended(l: Limits, start: State, s: State, a: Action, t: State)
    requires Leads(l, start, s) && Follows(l, s, a, t)
    ensures Leads(l, start, t)
  {
    var states, actions :|
      Run(l, states, actions, start.pages, start.urls) && states[0] == start && states[|actions|] == s;
    assert Run(l, states + [t], actions + [a], start.pages, start.urls);
  }

  lemma LeadsIsStable(l: Limits, start: State) returns (c: Claim)
    requires Initial(l, start, start.pages, start.urls)
    ensures Stable(l, start, c) && forall s :: c.holds(s) <==> Leads(l, start, s)
  {
    c := Claim(s => Leads(l, start, s));
    assert Run(l, [start], [], start.pages, start.urls);
    forall s, a, t | Follows(l, s, a, t) && c.holds(s) ensures c.holds(t) {
      Extended(l, start, s, a, t);
    }
  }
}
