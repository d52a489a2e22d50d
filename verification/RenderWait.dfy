/** Waiting for a form to be rendered: poll the page until it shows structure, stays still, or the budget is used up. */
module RenderWait {

  /** One diagnostic of the page; `signature` stands for the compared counts and tags. */
  datatype Diagnostic = Diagnostic(signature: string, complete: bool, forms: int, nativeControls: int)

  datatype ExitReason = StructureSignalObserved | StableWithoutStructure | BudgetExhausted

  const INTERVAL := 500
  const SETTLE := 3_000

  function Min(a: int, b: int): int {
    if a < b then a else b
  }

  predicate HasStructure(d: Diagnostic) {
    d.forms > 0 || d.nativeControls > 0
  }

  /** The time at which the `k`-th diagnostic is taken. */
  function TimeOf(budget: nat, k: nat): nat {
    Min(k * INTERVAL, budget)
  }

  predicate Unchanged(page: nat -> Diagnostic, k: nat) {
    k > 0 && page(k).signature == page(k - 1).signature && page(k).complete
  }

  /** How many rounds in a row, up to the `k`-th, left the page as it was and complete. */
  function StableRounds(page: nat -> Diagnostic, k: nat): nat {
    if Unchanged(page, k) then StableRounds(page, k - 1) + 1 else 0
  }

  predicate ShowsForm(page: nat -> Diagnostic, budget: nat, k: nat) {
    HasStructure(page(k)) && TimeOf(budget, k) >= Min(INTERVAL, budget)
  }

  predicate StandsStill(page: nat -> Diagnostic, budget: nat, k: nat) {
    && TimeOf(budget, k) >= Min(SETTLE, budget)
    && k >= 3 && Unchanged(page, k) && Unchanged(page, k - 1) && Unchanged(page, k - 2)
  }

  lemma ThreeStableRounds(page: nat -> Diagnostic, k: nat)
    ensures StableRounds(page, k) >= 3 <==>
            k >= 3 && Unchanged(page, k) && Unchanged(page, k - 1) && Unchanged(page, k - 2)
  {
    if k >= 1 && Unchanged(page, k) {
      assert StableRounds(page, k) == StableRounds(page, k - 1) + 1;
      if k >= 2 && Unchanged(page, k - 1) {
        assert StableRounds(page, k - 1) == StableRounds(page, k - 2) + 1;
      }
    }
  }

  /** The two conclusive observations, by what the page showed: a form after the first interval, stillness after six. */
  lemma ConclusionsAre(page: nat -> Diagnostic, budget: nat, k: nat)
    ensures ShowsForm(page, budget, k) <==> (page(k).forms >= 1 || page(k).nativeControls >= 1) && (k >= 1 || budget == 0)
    ensures StandsStill(page, budget, k) <==>
            && k >= 3 && (k >= 6 || budget <= 500 * k)
            && page(k - 3).signature == page(k - 2).signature == page(k - 1).signature == page(k).signature
            && page(k - 2).complete && page(k - 1).complete && page(k).complete
  {
  }

  /**
   The loop ends at the first diagnostic inside the budget that shows a form, or
   failing that stands still for three rounds; otherwise with the budget used up.
   A form that first shows in the very last diagnostic is not looked at.
   */
  method WaitForRenderStructure(page: nat -> Diagnostic, budget: nat)
    returns (taken: nat, elapsed: nat, reason: ExitReason)
    ensures elapsed == TimeOf(budget, taken) <= budget
    ensures forall j | 0 <= j < taken ::
              TimeOf(budget, j) < budget && !ShowsForm(page, budget, j) && !StandsStill(page, budget, j)
    ensures reason == StructureSignalObserved <==> elapsed < budget && ShowsForm(page, budget, taken)
    ensures reason == StableWithoutStructure <==>
              elapsed < budget && !ShowsForm(page, budget, taken) && StandsStill(page, budget, taken)
    ensures reason == BudgetExhausted <==> elapsed == budget
  {
    taken, elapsed := 0, 0;
    var stable := 0;
    while elapsed < budget
      invariant elapsed == TimeOf(budget, taken) <= budget
      invariant elapsed < budget ==> elapsed == taken * INTERVAL
      invariant stable == if taken == 0 then 0 else StableRounds(page, taken - 1)
      invariant forall j | 0 <= j < taken ::
                  TimeOf(budget, j) < budget && !ShowsForm(page, budget, j) && !StandsStill(page, budget, j)
      decreases budget - elapsed
    {
      if HasStructure(page(taken)) && elapsed >= Min(INTERVAL, budget) {
        return taken, elapsed, StructureSignalObserved;
      }
      stable := if Unchanged(page, taken) then stable + 1 else 0;
      ThreeStableRounds(page, taken);
      if elapsed >= Min(SETTLE, budget) && stable >= 3 {
        return taken, elapsed, StableWithoutStructure;
      }
      elapsed := elapsed + Min(INTERVAL, budget - elapsed);
      taken := taken + 1;
    }
    reason := BudgetExhausted;
  }
}
