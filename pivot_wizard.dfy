/**
 * The beginner sales programs Assgn2/Ex5.py and Assgn2/Ex6.py: the
 * five-step custom pivot-table wizard (`generate_custom_pivot_table`, the
 * same code in both files), the row-count prompt of `display_initial_rows`
 * and the `display_menu` loop. Standard input is the sequence of lines
 * typed; the pivot itself is pandas work and is not part of this model.
 */
module PivotWizard {
  import opened Wrappers
  import opened Text
  import opened Prompt
  import SalesDashboard

  /** Step 1: the columns that can be analysed. */
  const NumberColumns: seq<string> := ["sales", "quantity", "unit_price"]

  /** Step 2: the calculations offered. */
  const Calculations: seq<string> := ["sum", "average", "count"]

  /** The columns step 3 groups by. */
  const GroupColumns: seq<string> := ["customer_state", "product_category", "employee_name", "order_type", "customer_type"]

  /** The description printed after each column name. */
  const GroupDescriptions: seq<string> := [
    "(by state)", "(by product type)", "(by employee)", "(by order type)", "(by customer type)"]

  /**
   * Step 3's labels, `"customer_state (by state)"` to
   * `"customer_type (by customer type)"`: a column name, a space and a
   * description.
   */
  const GroupingOptions: seq<string> := [
    GroupColumns[0] + " " + GroupDescriptions[0],
    GroupColumns[1] + " " + GroupDescriptions[1],
    GroupColumns[2] + " " + GroupDescriptions[2],
    GroupColumns[3] + " " + GroupDescriptions[3],
    GroupColumns[4] + " " + GroupDescriptions[4]]

  /** pandas' name for the calculation: "average" becomes "mean", the others pass through. */
  function AggFunc(calculation: string): (r: string)
    ensures calculation == "average" ==> r == "mean"
    ensures calculation != "average" ==> r == calculation
  {
    if calculation == "average" then "mean" else calculation
  }

  /** `label.split(' ')[0]`: the column name, the label's text before its first space. */
  function GroupColumn(opt: string): (r: string)
    ensures StartsWith(opt, r)
    ensures ' ' !in r
  {
    SplitHeadPrefix(opt, ' ');
    Split(opt, ' ')[0]
  }

  /** A label made of a name, a space and a description groups by the name. */
  lemma GroupColumnOf(name: string, description: string)
    requires ' ' !in name
    ensures GroupColumn(name + " " + description) == name
  {
    SplitAfterPiece(name, description, ' ');
  }

  /** Each grouping label groups by the column of the same position. */
  lemma GroupingColumns()
    ensures |GroupingOptions| == |GroupColumns|
    ensures forall i :: 0 <= i < |GroupingOptions| ==> GroupColumn(GroupingOptions[i]) == GroupColumns[i]
  {
    forall i | 0 <= i < |GroupingOptions|
      ensures GroupColumn(GroupingOptions[i]) == GroupColumns[i]
    {
      assert ' ' !in GroupColumns[i] by {
        assert ' ' !in "customer_state" && ' ' !in "product_category" && ' ' !in "employee_name";
        assert ' ' !in "order_type" && ' ' !in "customer_type";
      }
      GroupColumnOf(GroupColumns[i], GroupDescriptions[i]);
    }
  }

  /** `[opt for opt in options if not opt.startswith(column)]` */
  function RemainingOptions(options: seq<string>, column: string): (r: seq<string>)
    ensures forall o :: o in r <==> o in options && !StartsWith(o, column)
    ensures |r| <= |options|
  {
    if options == [] then []
    else (if StartsWith(options[0], column) then [] else [options[0]]) + RemainingOptions(options[1..], column)
  }

  /** A label left over after grouping by `column` never groups by `column` again. */
  lemma RemainingGroupsElsewhere(options: seq<string>, column: string, opt: string)
    requires opt in RemainingOptions(options, column)
    ensures GroupColumn(opt) != column
  {
  }

  /**
   * `show_options_and_get_choice` on each step's options, one value per
   * step so that the wizard and its loops read lines the same way.
   */
  const AskAnalyze: string -> Option<string> := l => Choose(NumberColumns, l)
  const AskCalculation: string -> Option<string> := l => Choose(Calculations, l)
  const AskGrouping: string -> Option<string> := l => Choose(GroupingOptions, l)

  /** The choices the wizard hands to `pivot_table`. */
  datatype Plan = Plan(analyze: string, aggfunc: string, group: string, second: Option<string>)

  /** Where the wizard ends: a plan and the number of lines it read, or input ran out first. */
  datatype Run = Built(plan: Plan, used: nat) | OutOfInput

  /** `line.strip().lower() == 'yes'` */
  predicate SaysYes(line: string) {
    Lower(Strip(line)) == "yes"
  }

  /**
   * Step 4 on the lines left after step 3: the answer to "type 'yes'",
   * then on "yes" one pick among the labels not starting with the group
   * column (no re-prompt: a refused pick means no second grouping). The
   * reply is the second column, if any, and the lines read.
   */
  function SecondStep(group: string, rest: seq<string>): (r: Option<(Option<string>, nat)>)
    ensures r.Some? ==> 1 <= r.value.1 <= |rest|
    ensures |rest| > 0 && !SaysYes(rest[0]) ==> r == Some((None, 1))
    ensures rest == [] ==> r.None?
    ensures r.None? ==> rest == [] || (SaysYes(rest[0]) && |rest| == 1)
  {
    if rest == [] then None
    else if !SaysYes(rest[0]) then Some((None, 1))
    else
      var remaining := RemainingOptions(GroupingOptions, group);
      if remaining == [] then Some((None, 1))
      else if |rest| == 1 then None
      else match Choose(remaining, rest[1])
        case Some(opt) => if opt != "" then Some((Some(GroupColumn(opt)), 2)) else Some((None, 2))
        case None => Some((None, 2))
  }

  /**
   * One `while value is None` step from line `pos` on: the value picked
   * and the position after the line that picked it.
   */
  function Step(ask: string -> Option<string>, lines: seq<string>, pos: nat): (r: Option<(string, nat)>)
    requires pos <= |lines|
    ensures r.Some? ==> pos < r.value.1 <= |lines| && ask(lines[r.value.1 - 1]) == Some(r.value.0)
  {
    match FirstAccepted(lines[pos..], ask)
    case Exhausted => None
    case Accepted(v, n) =>
      assert lines[pos..][n - 1] == lines[pos + n - 1];
      Some((v, pos + n))
  }

  /** A step re-prompts on every line it refuses, and stops at the first it accepts. */
  lemma StepRefusals(ask: string -> Option<string>, lines: seq<string>, pos: nat)
    requires pos <= |lines|
    ensures var r := Step(ask, lines, pos);
            && (r.Some? ==> forall j :: pos <= j < r.value.1 - 1 ==> ask(lines[j]) == None)
            && (r.None? ==> forall j :: pos <= j < |lines| ==> ask(lines[j]) == None)
  {
    assert forall j :: pos <= j < |lines| ==> lines[j] == lines[pos..][j - pos];
  }

  /** The loop of one step. */
  method AskUntilChosen(ask: string -> Option<string>, lines: seq<string>, pos: nat) returns (r: Option<(string, nat)>)
    requires pos <= |lines|
    ensures r == Step(ask, lines, pos)
  {
    var reply := ReadUntilAccepted(lines[pos..], ask);
    r := if reply.Accepted? then Some((reply.value, pos + reply.used)) else None;
  }

  /** Steps 3 and 4 once the measure and the calculation are known. */
  function Grouping(analyze: string, aggfunc: string, lines: seq<string>, pos: nat): (r: Run)
    requires pos <= |lines|
    ensures r.Built? ==> pos + 2 <= r.used <= |lines|
  {
    match Step(AskGrouping, lines, pos)
    case None => OutOfInput
    case Some((opt, p3)) => Grouped(analyze, aggfunc, GroupColumn(opt), lines, p3)
  }

  /** Step 4 once the first group column is known, from line `p3` on. */
  function Grouped(analyze: string, aggfunc: string, group: string, lines: seq<string>, p3: nat): (r: Run)
    requires p3 <= |lines|
    ensures r.Built? ==> p3 < r.used <= |lines| && r.plan.group == group
    ensures p3 < |lines| && !SaysYes(lines[p3]) ==> r == Built(Plan(analyze, aggfunc, group, None), p3 + 1)
  {
    assert p3 < |lines| ==> lines[p3..][0] == lines[p3];
    match SecondStep(group, lines[p3..])
    case None => OutOfInput
    case Some((second, n4)) => Built(Plan(analyze, aggfunc, group, second), p3 + n4)
  }

  /** The whole wizard on the typed lines, step by step. */
  function Wizard(lines: seq<string>): (r: Run)
    ensures r.Built? ==> 4 <= r.used <= |lines|
    ensures |lines| < 4 ==> r == OutOfInput
  {
    match Step(AskAnalyze, lines, 0)
    case None => OutOfInput
    case Some((analyze, p1)) =>
      match Step(AskCalculation, lines, p1)
      case None => OutOfInput
      case Some((calculation, p2)) => Grouping(analyze, AggFunc(calculation), lines, p2)
  }

  /** `generate_custom_pivot_table(data)` up to the call to `pivot_table`. */
  method GenerateCustomPivotTable(lines: seq<string>) returns (r: Run)
    ensures r == Wizard(lines)
  {
    var analyze := AskUntilChosen(AskAnalyze, lines, 0);
    if analyze.None? {
      return OutOfInput;
    }
    var calculation := AskUntilChosen(AskCalculation, lines, analyze.value.1);
    if calculation.None? {
      return OutOfInput;
    }
    var howToCalculate := calculation.value.0;
    if howToCalculate == "average" {
      howToCalculate := "mean";
    }
    r := AskGroupings(analyze.value.0, howToCalculate, lines, calculation.value.1);
  }

  /** Steps 3 and 4 of `generate_custom_pivot_table`. */
  method AskGroupings(analyze: string, aggfunc: string, lines: seq<string>, pos: nat) returns (r: Run)
    requires pos <= |lines|
    ensures r == Grouping(analyze, aggfunc, lines, pos)
  {
    var groupBy := AskUntilChosen(AskGrouping, lines, pos);
    if groupBy.None? {
      return OutOfInput;
    }
    var groupColumn := GroupColumn(groupBy.value.0);
    r := AskSecondGrouping(analyze, aggfunc, groupColumn, lines, groupBy.value.1);
  }

  /** Step 4 of `generate_custom_pivot_table`. */
  method AskSecondGrouping(analyze: string, aggfunc: string, group: string, lines: seq<string>, p3: nat) returns (r: Run)
    requires p3 <= |lines|
    ensures r == Grouped(analyze, aggfunc, group, lines, p3)
  {
    var step4 := SecondStep(group, lines[p3..]);
    if step4.None? {
      return OutOfInput;
    }
    r := Built(Plan(analyze, aggfunc, group, step4.value.0), p3 + step4.value.1);
  }

  /** A step's answer is one of its options. */
  lemma StepPicksOption(options: seq<string>, ask: string -> Option<string>, lines: seq<string>, pos: nat)
    requires pos <= |lines|
    requires forall l :: ask(l) == Choose(options, l)
    ensures Step(ask, lines, pos).Some? ==> Step(ask, lines, pos).value.0 in options
  {
  }

  /** Steps 3 and 4 group by a listed column and, if at all, by a different listed one second. */
  lemma GroupingValid(analyze: string, aggfunc: string, lines: seq<string>, pos: nat)
    requires pos <= |lines|
    ensures var w := Grouping(analyze, aggfunc, lines, pos);
            w.Built? ==>
              && pos < w.used <= |lines|
              && w.plan.analyze == analyze && w.plan.aggfunc == aggfunc
              && w.plan.group in GroupColumns
              && (w.plan.second.Some? ==> w.plan.second.value in GroupColumns && w.plan.second.value != w.plan.group)
  {
    var st := Step(AskGrouping, lines, pos);
    if st.Some? {
      StepPicksOption(GroupingOptions, AskGrouping, lines, pos);
      GroupedValid(analyze, aggfunc, st.value.0, lines, st.value.1);
    }
  }

  /** Step 4 after a listed label: the same promises from line `p3` on. */
  lemma GroupedValid(analyze: string, aggfunc: string, opt: string, lines: seq<string>, p3: nat)
    requires p3 <= |lines| && opt in GroupingOptions
    ensures var w := Grouped(analyze, aggfunc, GroupColumn(opt), lines, p3);
            w.Built? ==>
              && p3 < w.used <= |lines|
              && w.plan.analyze == analyze && w.plan.aggfunc == aggfunc
              && w.plan.group == GroupColumn(opt) && w.plan.group in GroupColumns
              && (w.plan.second.Some? ==> w.plan.second.value in GroupColumns && w.plan.second.value != w.plan.group)
  {
    OptionGroupListed(opt);
    SecondValid(opt, lines[p3..]);
  }

  /** A listed label groups by a listed column. */
  lemma OptionGroupListed(opt: string)
    requires opt in GroupingOptions
    ensures GroupColumn(opt) in GroupColumns
  {
    GroupingColumns();
    var i :| 0 <= i < |GroupingOptions| && GroupingOptions[i] == opt;
    assert GroupColumn(opt) == GroupColumns[i];
  }

  /** A second grouping, when made, is the column of another listed label. */
  lemma SecondValid(opt: string, rest: seq<string>)
    requires opt in GroupingOptions
    ensures var s := SecondStep(GroupColumn(opt), rest);
            s.Some? && s.value.0.Some? ==> s.value.0.value in GroupColumns && s.value.0.value != GroupColumn(opt)
  {
    var group := GroupColumn(opt);
    var s := SecondStep(group, rest);
    if s.Some? && s.value.0.Some? {
      SecondFromRemaining(group, rest);
      var second := Choose(RemainingOptions(GroupingOptions, group), rest[1]).value;
      RemainingGroupsElsewhere(GroupingOptions, group, second);
      OptionGroupListed(second);
    }
  }

  /**
   * What the wizard promises: every step's answer is one of its options,
   * "average" reaches pandas as "mean", the group column is that of a
   * listed label, and a second grouping, when there is one, is a different
   * listed column.
   */
  lemma WizardPlanValid(lines: seq<string>)
    ensures Wizard(lines).Built? ==>
              var p := Wizard(lines).plan;
              && 0 < Wizard(lines).used <= |lines|
              && p.analyze in NumberColumns
              && p.aggfunc in ["sum", "mean", "count"]
              && p.group in GroupColumns
              && (p.second.Some? ==> p.second.value in GroupColumns && p.second.value != p.group)
  {
    var a := Step(AskAnalyze, lines, 0);
    StepPicksOption(NumberColumns, AskAnalyze, lines, 0);
    if a.Some? {
      var c := Step(AskCalculation, lines, a.value.1);
      StepPicksOption(Calculations, AskCalculation, lines, a.value.1);
      if c.Some? {
        GroupingValid(a.value.0, AggFunc(c.value.0), lines, c.value.1);
      }
    }
  }

  /** A second grouping comes from "yes" and a valid pick among the remaining labels. */
  lemma SecondFromRemaining(group: string, rest: seq<string>)
    requires SecondStep(group, rest).Some? && SecondStep(group, rest).value.0.Some?
    ensures |rest| >= 2 && SaysYes(rest[0])
    ensures var pick := Choose(RemainingOptions(GroupingOptions, group), rest[1]);
            pick.Some? && SecondStep(group, rest).value.0.value == GroupColumn(pick.value)
  {
  }

  /** Without "yes" at step 4 no second grouping is made. */
  lemma NoSecondWithoutYes(group: string, rest: seq<string>)
    requires rest != [] && !SaysYes(rest[0])
    ensures SecondStep(group, rest) == Some((None, 1))
  {
  }

  /** A step whose first line is accepted ends right after it. */
  lemma StepAcceptsFirst(ask: string -> Option<string>, lines: seq<string>, pos: nat)
    requires pos < |lines| && ask(lines[pos]).Some?
    ensures Step(ask, lines, pos) == Some((ask(lines[pos]).value, pos + 1))
  {
    assert lines[pos..][0] == lines[pos];
    FirstAcceptedAt(lines[pos..], ask, 0);
  }

  /**
   * Typing 1, 2 and 3 at the first three steps, each with any surrounding
   * whitespace, and Enter at the fourth.
   */
  lemma WizardExample(lines: seq<string>, pad: string)
    requires forall i :: 0 <= i < |pad| ==> IsSpace(pad[i])
    requires |lines| == 4 && lines[0] == pad + "1" + pad && lines[1] == pad + "2" + pad
    requires lines[2] == pad + "3" + pad && lines[3] == ""
    ensures Wizard(lines) == Built(Plan("sales", "mean", "employee_name", None), 4)
  {
    assert NatToString(1) == "1" && NatToString(2) == "2";
    ChooseListedNumber(NumberColumns, 1, pad);
    ChooseListedNumber(Calculations, 2, pad);
    StepAcceptsFirst(AskAnalyze, lines, 0);
    StepAcceptsFirst(AskCalculation, lines, 1);
    assert AggFunc("average") == "mean";
    ExampleGrouping(lines, pad);
  }

  /** The last two lines of the example: label 3, then no second grouping. */
  lemma ExampleGrouping(lines: seq<string>, pad: string)
    requires forall i :: 0 <= i < |pad| ==> IsSpace(pad[i])
    requires |lines| == 4 && lines[2] == pad + "3" + pad && lines[3] == ""
    ensures Grouping("sales", "mean", lines, 2) == Built(Plan("sales", "mean", "employee_name", None), 4)
  {
    LabelThree(lines, pad);
    EmployeeLabel();
    assert lines[3..][0] == "" && !SaysYes("");
    NoSecondWithoutYes("employee_name", lines[3..]);
  }

  /** Step 3 of the example: the third label, read from line 2. */
  lemma LabelThree(lines: seq<string>, pad: string)
    requires forall i :: 0 <= i < |pad| ==> IsSpace(pad[i])
    requires |lines| >= 3 && lines[2] == pad + "3" + pad
    ensures Step(AskGrouping, lines, 2) == Some((GroupingOptions[2], 3))
  {
    assert NatToString(3) == "3";
    ChooseListedNumber(GroupingOptions, 3, pad);
    StepAcceptsFirst(AskGrouping, lines, 2);
  }

  /** The third label groups by the employee. */
  lemma EmployeeLabel()
    ensures GroupColumn(GroupingOptions[2]) == "employee_name"
  {
    GroupingColumns();
  }

  /**
   * How much of the pivot is printed: a table of more than 10 rows shows
   * its first 10 and reports the total, a smaller one is shown whole.
   */
  function ShownRows(total: nat): (r: (nat, bool))
    ensures r.0 <= 10 && r.0 <= total
    ensures r.1 <==> total > 10
    ensures r.1 ==> r.0 == 10
    ensures !r.1 ==> r.0 == total
  {
    if total > 10 then (10, true) else (total, false)
  }

  // ---------------------------------------------------------------------------
  // The console loops
  // ---------------------------------------------------------------------------

  /** `int(line)` when it is greater than 0. */
  function PositiveNumber(line: string): (r: Option<nat>)
    ensures r.Some? <==> ParseInt(line).Some? && ParseInt(line).value > 0
    ensures r.Some? ==> r.value as int == ParseInt(line).value
  {
    match ParseInt(line)
    case Some(k) => if k > 0 then Some(k as nat) else None
    case None => None
  }

  /**
   * `display_initial_rows(data)`: re-prompts until the line is a number
   * greater than 0, then shows that many rows from the top (all of them
   * when the number exceeds the row count).
   */
  method DisplayInitialRows(data: SalesDashboard.Frame, lines: seq<string>)
    returns (r: Reply<nat>, shown: SalesDashboard.Frame)
    ensures r == FirstAccepted(lines, PositiveNumber)
    ensures r.Accepted? ==> r.value > 0 && ParseInt(lines[r.used - 1]) == Some(r.value as int)
    ensures r.Accepted? ==> shown == SalesDashboard.Head(data, r.value)
    ensures r.Accepted? ==> shown.rows == (if r.value < data.rows then r.value else data.rows)
  {
    r := ReadUntilAccepted(lines, PositiveNumber);
    shown := if r.Accepted? then SalesDashboard.Head(data, r.value) else data;
  }

  /** The menu titles of Assgn2/Ex5.py. */
  const Ex5Menu: seq<string> := [
    "Show the first n rows of sales data",
    "Show the number of employees by region",
    "Create custom pivot table",
    "Exit the program"]

  /** The menu titles of Assgn2/Ex6.py. */
  const Ex6Menu: seq<string> := [
    "Show the first n rows of sales data",
    "Show the number of employees by region",
    "Show total sales by product category",
    "Show average order value by customer type",
    "Show top performing employees",
    "Show sales summary by state",
    "Show monthly sales trends",
    "Create custom pivot table",
    "Exit the program"]

  /**
   * `display_menu()`: re-prompts until a number from 1 to the menu's
   * length; the last entry exits.
   */
  method DisplayMenu(titles: seq<string>, lines: seq<string>) returns (r: Reply<int>)
    ensures r.Accepted? ==> 0 < r.used <= |lines| && 1 <= r.value <= |titles| && ParseInt(lines[r.used - 1]) == Some(r.value)
    ensures r.Accepted? ==> forall j :: 0 <= j < r.used - 1 ==> NumberBetween(lines[j], 1, |titles|).None?
    ensures r.Exhausted? <==> forall j :: 0 <= j < |lines| ==> NumberBetween(lines[j], 1, |titles|).None?
  {
    r := ReadMenuChoice(lines, |titles|);
  }

  /** Ex5's menu has four entries and Ex6's nine, each with exit last. */
  lemma MenusEndWithExit()
    ensures |Ex5Menu| == 4 && Ex5Menu[3] == "Exit the program"
    ensures |Ex6Menu| == 9 && Ex6Menu[8] == "Exit the program"
  {
  }

  /** Typing 5 at Ex5's menu is refused, and at Ex6's menu accepted. */
  lemma FiveOnTheMenus()
    ensures NumberBetween("5", 1, |Ex5Menu|) == None
    ensures NumberBetween("5", 1, |Ex6Menu|) == Some(5)
  {
    assert "" + NatToString(5) + "" == "5";
    NumberBetweenListed(5, 1, 9, "");
    ParseIntOfNatToString(5);
  }
}
