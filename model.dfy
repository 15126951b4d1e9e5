/** The calculator's module-level state: the custom expenses and their id counter, the
    deleted default groups, and the budget with its flag, together with the handlers that
    change them. */
module Model {
  import opened Inputs
  import opened Expenses
  import opened Aggregation
  import BudgetStatus

  class ExpenseModel {
    var customs: seq<Expense>
    var counter: nat
    var deleted: set<Group>
    var userBudget: real
    var budgetSet: bool

    /** Ids increase along the list and lie in `1..counter`, so a fresh id is never one
        already in use; a set budget is positive. */
    ghost predicate Valid()
      reads this
    {
      IdsIncreasing(customs) && IdsBelow(customs, counter) && (budgetSet ==> userBudget > 0.0)
    }

    /** The state when the page loads. */
    constructor()
      ensures Valid()
      ensures customs == [] && counter == 0 && deleted == {}
      ensures userBudget == 0.0 && !budgetSet
    {
      customs, counter, deleted := [], 0, {};
      userBudget, budgetSet := 0.0, false;
    }

    /** `addCustomExpense`: the counter moves on and a blank expense with the new id is
        appended; deleting that id again gives back the list as it was. */
    method AddCustomExpense()
      requires Valid()
      modifies this
      ensures Valid()
      ensures counter == old(counter) + 1
      ensures customs == old(customs) + [Expense(counter, "", 0.0)]
      ensures !HasId(old(customs), counter)
      ensures RemoveId(customs, counter) == old(customs)
      ensures deleted == old(deleted) && userBudget == old(userBudget) && budgetSet == old(budgetSet)
    {
      var e := Expense(counter + 1, "", 0.0);
      AppendKeepsIds(customs, e, counter);
      AddThenRemove(customs, e);
      counter := counter + 1;
      customs := customs + [e];
    }

    /** `deleteCustomExpense`: the list without the entries that carry `id`. */
    method DeleteCustomExpense(id: nat)
      requires Valid()
      modifies this
      ensures Valid()
      ensures customs == RemoveId(old(customs), id)
      ensures !HasId(old(customs), id) ==> customs == old(customs)
      ensures counter == old(counter) && deleted == old(deleted)
      ensures userBudget == old(userBudget) && budgetSet == old(budgetSet)
    {
      RemoveIdKeepsIds(customs, id, counter);
      if !HasId(customs, id) {
        RemoveIdAbsent(customs, id);
      }
      customs := RemoveId(customs, id);
    }

    /** `updateCustomExpenseName`: the entry found by id takes the new name; with no such
        entry nothing changes. */
    method UpdateCustomExpenseName(id: nat, name: string)
      requires Valid()
      modifies this
      ensures Valid()
      ensures customs == Renamed(old(customs), id, name)
      ensures !HasId(old(customs), id) ==> customs == old(customs)
      ensures counter == old(counter) && deleted == old(deleted)
      ensures userBudget == old(userBudget) && budgetSet == old(budgetSet)
    {
      RenamedKeeps(customs, id, name);
      var k := FindIndex(customs, id);
      if k >= 0 {
        IncreasingIdsAreDistinct(customs);
        RenamedAt(customs, id, name, k);
        customs := customs[k := customs[k].(name := name)];
      }
    }

    /** `updateCustomExpenseAmount`: the entry found by id takes `parseFloat(amount) || 0`,
        so text that does not parse sets it to 0; with no such entry nothing changes. */
    method UpdateCustomExpenseAmount(id: nat, amount: Option<real>)
      requires Valid()
      modifies this
      ensures Valid()
      ensures customs == Reamounted(old(customs), id, OrDefault(amount, 0.0))
      ensures !HasId(old(customs), id) ==> customs == old(customs)
      ensures amount.None? ==> forall i :: 0 <= i < |customs| && customs[i].id == id ==> customs[i].amount == 0.0
      ensures counter == old(counter) && deleted == old(deleted)
      ensures userBudget == old(userBudget) && budgetSet == old(budgetSet)
    {
      var value := OrDefault(amount, 0.0);
      if !HasId(customs, id) {
        ReamountedAbsent(customs, id, value);
      }
      var k := FindIndex(customs, id);
      if k >= 0 {
        IncreasingIdsAreDistinct(customs);
        ReamountedAt(customs, id, value, k);
        customs := customs[k := customs[k].(amount := value)];
      }
    }

    /** `deleteDefaultExpense`: the group joins the deleted set; deleting it twice is the
        same as once. */
    method DeleteDefaultExpense(g: Group)
      requires Valid()
      modifies this
      ensures Valid()
      ensures deleted == old(deleted) + {g}
      ensures old(g in deleted) ==> deleted == old(deleted)
      ensures customs == old(customs) && counter == old(counter)
      ensures userBudget == old(userBudget) && budgetSet == old(budgetSet)
    {
      deleted := deleted + {g};
    }

    /** `setBudget`: the field's value, coerced with `|| 0`, is taken only when positive;
        otherwise the alert is shown and nothing changes. */
    method SetBudget(input: Option<real>) returns (accepted: bool)
      requires Valid()
      modifies this
      ensures Valid()
      ensures accepted <==> OrDefault(input, 0.0) > 0.0
      ensures accepted ==> userBudget == OrDefault(input, 0.0) && budgetSet
      ensures !accepted ==> userBudget == old(userBudget) && budgetSet == old(budgetSet)
      ensures customs == old(customs) && counter == old(counter) && deleted == old(deleted)
    {
      var budget := OrDefault(input, 0.0);
      if budget <= 0.0 {
        return false;
      }
      userBudget := budget;
      budgetSet := true;
      accepted := true;
    }

    /** `editBudget`: the budget stays, only its flag is cleared. */
    method EditBudget()
      requires Valid()
      modifies this
      ensures Valid()
      ensures !budgetSet
      ensures userBudget == old(userBudget)
      ensures customs == old(customs) && counter == old(counter) && deleted == old(deleted)
    {
      budgetSet := false;
    }

    /** The state part of `resetCalculator`: back to the state of a fresh page. */
    method Reset()
      modifies this
      ensures Valid()
      ensures customs == [] && counter == 0 && deleted == {}
      ensures userBudget == 0.0 && !budgetSet
    {
      userBudget := 0.0;
      budgetSet := false;
      deleted := {};
      customs := [];
      counter := 0;
    }

    /** `calculateBudget` on the current state and the form's fields. */
    method Recalculate(inp: TripInputs) returns (grandTotal: real, breakdown: seq<Entry>, perPerson: real)
      ensures grandTotal == GrandTotal(inp, deleted, customs)
      ensures breakdown == Breakdown(inp, deleted, customs)
      ensures perPerson == PerPerson(grandTotal, inp)
    {
      grandTotal, breakdown, perPerson := CalculateBudget(inp, deleted, customs);
    }

    /** `updateBudgetDisplay` on the current state: the amount spent is
        `calculateTotalExpenses()`, compared with the stored budget. */
    method BudgetDisplay(inp: TripInputs) returns (status: BudgetStatus.Status)
      ensures status == BudgetStatus.Evaluate(GrandTotal(inp, deleted, customs), userBudget)
    {
      var spent := CalculateTotalExpenses(inp, deleted, customs);
      status := BudgetStatus.Evaluate(spent, userBudget);
    }
  }
}
