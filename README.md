# Trip budget calculator — a verified model of its core

The calculator takes a trip's parameters: days, people, six per-category unit costs and a list of
custom expenses. From them it computes
- a grand total,
- an ordered breakdown,
- a per-person figure,

and a budget status against an optional total budget. All of the logic lives in `script.js`. This
project models that logic without the page. Each form field arrives already parsed, as
`Option<real>`; `None` stands for JavaScript's NaN. The model keeps only the `|| default` coercion
applied to every field.

The project has six modules.
- `Inputs`: `Option` and the `parseFloat(x) || d` coercion.
- `Expenses`: the six default groups, custom expenses, and the list operations the handlers use:
  - `filter` on the id;
  - `find` and update;
  - the amount sum.
- `Aggregation`:
  - `calculateTotalExpenses` and the aggregation part of `calculateBudget`, as pure
    specification functions;
  - the two loop-and-accumulate methods, each proved to agree with those functions;
  - lemmas about totals, the breakdown and percentages.
- `BudgetStatus`: the percentage, band, bar width and bar class logic of `updateBudgetDisplay`.
- `Currency`: the currency table and `formatCurrency`, covering:
  - `toFixed` on exact reals;
  - the separator regular expression, modelled position by position and proved equal to a
    grouping function;
  - the symbol placement.
- `Model`: class `ExpenseModel`. It holds the module-level state (`customExpenses`,
  `customExpenseCounter`, `deletedDefaultExpenses`, `userBudget`, `budgetSet`) and the handlers that
  change it. Its invariant is that ids increase along the list and lie in `1..counter`, and that a
  budget marked as set is positive.

Two behaviours of the code worth noting:
- People are coerced with `|| 1`. So NaN, an empty field and an explicit 0 all give 1. A negative
  count is kept as it is: it is never 0, so the per-person division is always defined.
- The breakdown's percentage text is `"0"` (the number 0) when the grand total is not positive.

## Model

| member | source | states |
|---|---|---|
| Inputs.OrDefault | script.js:24 | `parseFloat(x) \|\| d`: a value that does not parse, and zero, both give the fallback; any other value is kept |
| Aggregation.People | script.js:99 | people coerced with `\|\| 1` is never 0, and is 1 when the field does not parse |
| Aggregation.CalculateTotalExpenses | script.js:97-144 | the six guarded group blocks, then the loop over the custom expenses, return exactly the grand total |
| Aggregation.AddGroup | script.js:104-132 | one guarded block adds the group's contribution, or nothing when the group is deleted |
| Aggregation.CalculateBudget | script.js:282-380 | the push blocks and the custom loop produce exactly the grand total and the breakdown; the per-person figure is that total over people |
| Aggregation.PushGroup | script.js:293-363 | one block adds the group's contribution to the total and pushes its item, or does neither when the group is deleted |
| Aggregation.PerPerson | script.js:380 | multiplied by people, the per-person figure gives back the grand total; people is never 0 |
| Aggregation.BreakdownSumsToGrandTotal | script.js:293-377 | the item totals of the breakdown add up to the grand total |
| Aggregation.BreakdownDefaults | script.js:293-363 | the items before the custom ones: each active default group once, with its label and contribution, in the fixed group order; a group has an item exactly when it is not deleted |
| Aggregation.BreakdownCustoms | script.js:365-377 | after the default items come the custom expenses, in list order, each with its amount and `name \|\| "Custom Expense"` as label |
| Aggregation.CustomLabel | script.js:373 | the label is never empty; it is the name whenever the name is not empty, and "Custom Expense" when the name is empty |
| Aggregation.Contribution | script.js:104-132 | an active group adds its coerced unit cost times its factor: people for flights, days for accommodation and local transport, people × days for food and activities, 1 for miscellaneous; a zero or unparsed cost adds 0 |
| Aggregation.GrandTotal | script.js:97-144 | the grand total is the six groups visited in the fixed order, each adding its contribution unless deleted, plus every custom amount; with every group deleted only the custom amounts remain |
| Aggregation.Breakdown | script.js:282-377 | the breakdown has at least one item per custom expense and at most six more, and its tail is exactly one item per custom expense in list order |
| Aggregation.KeyTextInjective | script.js:299-372 | the item ids `flight`, `accommodation`, `food`, `activities`, `transport`, `misc` and `custom-<id>` are distinct for distinct keys |
| Aggregation.DeleteGroupTotal | script.js:104-132 | deleting a group lowers the total by exactly its contribution; deleting it again changes nothing |
| Aggregation.TwoPeopleThreeDays | script.js:104-117 | for 3 days and 2 people, a 500 flight contributes 1000 and food at 20 contributes 120 |
| Aggregation.EmptyFormTotal | script.js:97-144 | with every field empty and nothing deleted or added, the total is 0 |
| Aggregation.AddThenDeleteTotal | script.js:146-164 | a new blank custom expense leaves the total unchanged, and deleting its id gives back the previous list |
| Aggregation.PercentagesSumTo100 | script.js:386-387 | with a positive grand total, the item percentages add up to 100 |
| Aggregation.PercentageText | script.js:386-387 | the text is "0" when the grand total is not positive |
| Aggregation.PercentageTextShape | script.js:386-387 | with a positive grand total, the text ends in a point and one digit, and has a minus sign exactly when the item's total is negative |
| Expenses.GroupElementIdInjective | script.js:104-129 | distinct groups have distinct `*-group` element ids, so the deleted set of ids is a set of groups |
| Expenses.RemoveId | script.js:161 | the filter never lengthens the list, and no kept entry has the deleted id |
| Expenses.Renamed | script.js:239-244 | the list keeps its length, every id and every amount; each entry with the id has the new name and every other entry keeps its name |
| Expenses.Reamounted | script.js:246-251 | the list keeps its length, every id and every name; each entry with the id has the new amount and every other entry keeps its amount |
| Expenses.RemoveIdMembers | script.js:160-164 | the kept entries are exactly those whose id differs |
| Expenses.RemoveIdAppend | script.js:160-164 | the filter distributes over concatenation, so the kept entries stay in list order |
| Expenses.RemoveIdAbsent | script.js:160-164 | deleting an id the list does not hold changes nothing |
| Expenses.RemoveIdAt | script.js:160-164 | with distinct ids, deleting the id held at position k cuts out exactly that entry |
| Expenses.RemoveIdKeepsIds | script.js:160-164 | the kept entries still have increasing ids in `1..counter` |
| Expenses.AddThenRemove | script.js:146-164 | appending an expense with a fresh id and then deleting that id gives back the list |
| Expenses.SumAmountsAppend | script.js:135-141 | the amount sum of two lists joined is the sum of their sums |
| Expenses.RenamedKeeps | script.js:239-244 | renaming keeps every id and the amount sum; an absent id changes nothing |
| Expenses.RenamedAt | script.js:239-244 | when only position k holds the id, renaming rewrites exactly that entry |
| Expenses.ReamountedSum | script.js:246-251 | setting the amount of the entry with the id moves the sum by exactly the change of that entry's amount |
| Expenses.ReamountedAt | script.js:246-251 | when only position k holds the id, setting the amount rewrites exactly that entry |
| Expenses.ReamountedAbsent | script.js:246-251 | an absent id leaves the list unchanged |
| Expenses.FindIndex | script.js:240 | `find` by id: the first index holding the id, or -1 exactly when no entry holds it |
| Model.ExpenseModel.constructor | script.js:10-14 | the page-load state: empty custom list, counter 0, no deleted groups, budget 0 and not set; the invariant holds |
| Model.ExpenseModel.AddCustomExpense | script.js:146-158 | the counter goes up by one; a blank expense with the new id is appended; the new id was not in use, and deleting it gives back the old list |
| Model.ExpenseModel.DeleteCustomExpense | script.js:160-164 | the list becomes the filter by id; an absent id changes nothing; the invariant is kept |
| Model.ExpenseModel.UpdateCustomExpenseName | script.js:239-244 | only the entry with the id is renamed; an absent id changes nothing |
| Model.ExpenseModel.UpdateCustomExpenseAmount | script.js:246-251 | only the entry with the id gets the coerced amount, which is 0 when the input does not parse; an absent id changes nothing |
| Model.ExpenseModel.DeleteDefaultExpense | script.js:166-173 | the group is added to the deleted set and nothing else changes; deleting it twice is the same as once |
| Model.ExpenseModel.SetBudget | script.js:22-42 | the coerced value is accepted exactly when it is positive, and then both fields are set; otherwise the budget and its flag are unchanged |
| Model.ExpenseModel.EditBudget | script.js:44-50 | only the flag is cleared; the budget stays |
| Model.ExpenseModel.Reset | script.js:458-472 | the budget is 0 and unset, the deleted set and the custom list are empty, and the counter is 0 |
| Model.ExpenseModel.Recalculate | script.js:282-380 | `calculateBudget` on the current state returns the grand total, the breakdown and the per-person figure |
| Model.ExpenseModel.BudgetDisplay | script.js:52-58 | the status is evaluated with the spend taken from `calculateTotalExpenses` and the stored budget |
| BudgetStatus.Percentage | script.js:56 | 0 when the budget is not positive; otherwise percentage × budget = spent × 100; the breakdown's item percentage (script.js:387) is the same function of the item total and the grand total |
| BudgetStatus.BandOf | script.js:82-94 | the four messages partition the percentages: below 90, 90 up to 100, 100 up to 110, and 110 or more |
| BudgetStatus.BarWidth | script.js:66 | `min(p, 100)`: never above 100 or above p, and equal to one of them |
| BudgetStatus.BarClassOf | script.js:71-76 | `warning` exactly when 90 ≤ p < 100, `danger` exactly when p ≥ 100 |
| BudgetStatus.Evaluate | script.js:52-94 | remaining is budget − spent; the percentage is 0 without a positive budget and otherwise satisfies p × budget = spent × 100; the bar width is `min(p, 100)`; the band is that of p; the bar class and the status class agree with the band; the quoted amount is ± remaining and never negative once over |
| BudgetStatus.BarAgreesWithBand | script.js:71-94 | no bar class exactly in the under band, `warning` exactly in the approaching band, `danger` exactly in the two over bands |
| BudgetStatus.BandMonotone | script.js:82-94 | a larger percentage never gives a milder band |
| BudgetStatus.BandBySpent | script.js:56-94 | with a positive budget, the bands in money terms: less than 0.9 × budget spent, then less than the budget, then less than 1.1 × budget, then the rest |
| BudgetStatus.QuotedAmount | script.js:82-94 | the message quotes a positive remainder while under the budget, and the exact overspend once over it |
| BudgetStatus.StatusClass | script.js:82-94 | the status class is "over" exactly in the two over bands |
| BudgetStatus.MessageAmount | script.js:82-94 | the quoted amount is the remainder or its negation, and is never negative in the over bands |
| BudgetStatus.NoBudget | script.js:56-94 | with no positive budget, the percentage and bar width are 0 and the status is "under" |
| BudgetStatus.HundredExamples | script.js:52-94 | with a budget of 100, spending 89, 95, 105 and 150 gives the four bands in turn; the bar is 89 and 95 wide below the budget and full at 150; 105 quotes an overspend of 5 |
| Currency.Lookup | script.js:2-8 | five codes are known; every entry puts a one-character symbol before the amount; JPY has 0 decimals and every other code exactly 2; an unknown code gives nothing |
| Currency.Group | script.js:430 | removing the commas gives back the digits; the length grows by one comma for every 3 digits after the first; a comma sits exactly every fourth place from the end |
| Currency.RegexIsGroup | script.js:430 | the separator regular expression, on a sign and a digit string, inserts exactly the commas of `Group` |
| Currency.InsertSeparators | script.js:430 | the regular-expression replacement only inserts commas: removing the commas from its result gives the input with its commas removed |
| Currency.ToFixed | script.js:426 | `toFixed(decimals)`: a non-empty text with no comma that starts with a minus sign exactly for negative amounts; with decimals, it ends in a point and exactly `decimals` digits; without, it has no point |
| Currency.FormatAmount | script.js:426-431 | splitting on ".", grouping the first part and joining again only inserts commas into the `toFixed` text |
| Currency.MinorUnitsNearest | script.js:426 | `toFixed` rounds the scaled magnitude to a whole number within one half of it |
| Currency.FormatAmountShape | script.js:426-431 | the formatted amount is the sign, the grouped integer digits and the unchanged fraction |
| Currency.FormatAmountReadBack | script.js:426-431 | dropping the commas gives digits which, with exactly `decimals` fraction digits, denote the rounded amount in minor units; the sign shows exactly for negative amounts |
| Currency.FormatCurrency | script.js:420-439 | a result exists exactly for the codes of the table |
| Currency.FormatCurrencyShape | script.js:420-439 | for every code in the table, the symbol comes first, then the sign, the grouped digits and the fraction |
| Currency.FormatCurrencyDollars | script.js:420-439 | 1234567.5 in USD is `$1,234,567.50` |
| Currency.FormatCurrencyRupees | script.js:420-439 | 1234.5 in INR, the default currency, is `₹1,234.50` |
| Currency.FormatCurrencyYenZero | script.js:420-439 | 0 in JPY is `¥0` |
| Currency.FormatCurrencyNegativeSmall | script.js:420-439 | a small negative amount rounds to zero but keeps its minus sign |

## Left out

- The page itself is not modelled:
  - every `getElementById` read and write;
  - the `innerHTML` templates of `renderCustomExpenses` and of the breakdown;
  - class and style toggling, and `alert`;
  - `updateCurrencySymbols`, `toggleMenu`, the smooth-scroll handlers and `DOMContentLoaded`.

  Field values come in as parameters, and the computed values are returned.
- `parseFloat` text parsing is not modelled. A field is given as already parsed, and only the
  `|| default` coercion is modelled.
- JavaScript numbers are modelled as exact reals, not IEEE-754 doubles. So float rounding
  quirks, infinities and `toFixed`'s exponential form for magnitudes of 10^21 and more are not
  captured, and ties in `toFixed` round half up on the exact value.
- Aggregation.CalculateTotalExpenses, Aggregation.CalculateBudget: a custom expense contributes
  its stored amount. The source re-reads the `custom-amount-<id>` field instead, and
  `updateCustomExpenseAmount` keeps the stored amount equal to that field's coerced value.
- Aggregation.CalculateBudget: the per-group formulas of its six blocks are written once, in
  `Contribution`. They are the same formulas as in `calculateTotalExpenses`.
- The icons of the breakdown items are not modelled. Neither is the wording of the status
  messages beyond the band, the status class and the amount quoted.
- Model.ExpenseModel.DeleteDefaultExpense: the check that the group's element exists is not
  modelled. The group is one of the six enumerated groups, and for those the element always exists.
- Model.ExpenseModel.Reset: clearing the form fields and resetting the currency selector to
  INR are page effects and are not modelled.
- The currency symbols are the intended `€`, `₹` and `¥`. The source file holds them as
  mis-decoded byte sequences.
- Model.ExpenseModel.SetBudget, Model.ExpenseModel.Reset, Model.ExpenseModel.DeleteCustomExpense,
  Model.ExpenseModel.DeleteDefaultExpense: the calls they make to `updateBudgetDisplay` and
  `calculateBudget` are modelled separately, as `BudgetDisplay` and `Recalculate`.
- Model.ExpenseModel.BudgetDisplay: `calculateBudget` and `updateCurrencySymbols` call
  `updateBudgetDisplay` only when `budgetSet` holds. That guard belongs to the callers and is
  not part of `BudgetDisplay`, which evaluates the status whatever the flag.
