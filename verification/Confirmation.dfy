/** When an event counts as confirmed, and why it stays confirmed. */
module Confirmation {
  import opened FiniteSums
  import opened LedgerInvariants
  import opened LedgerModel
  import opened LedgerRuns

  /** The keys that attested the event in the context. */
  function Witnesses(s: LState, id: string, ctx: string): (r: set<string>) {
    set m | m in s.marks && m.Attested? && m.eventId == id && m.ctx == ctx :: m.key
  }

  function Honest(s: LState, id: string, ctx: string): (r: set<string>) {
    Witnesses(s, id, ctx) - s.compromised
  }

  /** The weight a witness adds; non-positive weights add nothing. */
  function PositiveWeight(trust: Trust, ctx: string): (r: string -> int) {
    key => if trust.Weight(ctx, key) > 0 then trust.Weight(ctx, key) else 0
  }

  /** The summed positive weights of the uncompromised witnesses. */
  ghost function Score(s: LState, id: string, ctx: string, trust: Trust): (r: int) {
    Sum(Honest(s, id, ctx), PositiveWeight(trust, ctx))
  }

  ghost predicate IsConfirmed(s: LState, id: string, ctx: string, trust: Trust) {
    trust.Threshold(ctx) > 0 && id in s.events && Score(s, id, ctx, trust) >= trust.Threshold(ctx)
  }

  lemma SumOfNothing(w: string -> int)
    ensures Sum({}, w) == 0
  {
  }

  /** More attestations never unconfirm, as long as no key is newly compromised. */
  lemma ConfirmedGrows(s: LState, t: LState, id: string, ctx: string, trust: Trust)
    requires IsConfirmed(s, id, ctx, trust) && Grows(s, t) && t.compromised == s.compromised
    ensures IsConfirmed(t, id, ctx, trust)
  {
    hide Sum;
    forall key | key in Honest(s, id, ctx) ensures key in Honest(t, id, ctx) {
      var m :| m in s.marks && m.Attested? && m.eventId == id && m.ctx == ctx && m.key == key;
      assert m in t.marks;
    }
    SumMonotone(Honest(s, id, ctx), Honest(t, id, ctx), PositiveWeight(trust, ctx));
  }

  /** A confirmed event stays confirmed along any run without new compromises or pruning. */
  lemma {:induction false} ConfirmedStays(env: Env, s: LState, steps: seq<Step>, id: string, ctx: string, trust: Trust)
    requires IsConfirmed(s, id, ctx, trust)
    requires NothingDropped(env, s, steps) && Exec(env, s, steps).compromised == s.compromised
    ensures IsConfirmed(Exec(env, s, steps), id, ctx, trust)
  {
    hide Do, IsConfirmed, Grows;
    if steps != [] {
      var k := |steps| - 1;
      var init := steps[..k];
      forall i | 0 <= i < k && init[i].Prunes()
        ensures Do(env, Exec(env, s, init[..i]), init[i]) == Exec(env, s, init[..i])
      {
        assert init[..i] == steps[..i] && init[i] == steps[i];
      }
      var t := Exec(env, s, init);
      CompromisedGrow(env, s, init);
      StepGrows(env, t, steps[k]);
      assert steps[..k] == init;
      ConfirmedStays(env, s, init, id, ctx, trust);
      ConfirmedGrows(t, Exec(env, s, steps), id, ctx, trust);
    }
  }

  lemma {:induction false} CompromisedGrow(env: Env, s: LState, steps: seq<Step>)
    ensures s.compromised <= Exec(env, s, steps).compromised
  {
    hide Do;
    if steps != [] {
      CompromisedGrow(env, s, steps[..|steps| - 1]);
      StepGrows(env, Exec(env, s, steps[..|steps| - 1]), steps[|steps| - 1]);
    }
  }
}
