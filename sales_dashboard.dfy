/**
 * The console sales dashboard of Assgn2/Extracredit.py, without pandas: a
 * data frame is its column names, the names of its numeric columns and its
 * row count. Modelled here are the menu built from column requirements, the
 * pickers (one number, a comma list, a row range), the first-rows preview,
 * the store of named results and the comparison of two stored results.
 */
module SalesDashboard {
  import opened Wrappers
  import opened Text
  import opened Prompt

  /** A data frame, abstractly. */
  datatype Frame = Frame(columns: seq<string>, numeric: seq<string>, rows: nat)

  /** `df.head(n)` */
  function Head(f: Frame, n: nat): Frame {
    f.(rows := if n < f.rows then n else f.rows)
  }

  // ---------------------------------------------------------------------------
  // Column requirements and the menu
  // ---------------------------------------------------------------------------

  /** An entry of a requirement list: a column name, or a tuple of alternative names. */
  datatype Requirement = Column(name: string) | AnyOf(names: seq<string>)

  /** Some name of `names` is a column. */
  function AnyPresent(names: seq<string>, columns: seq<string>): (b: bool)
    ensures b <==> exists k :: 0 <= k < |names| && names[k] in columns
  {
    if names == [] then false
    else if names[0] in columns then true
    else
      var b := AnyPresent(names[1..], columns);
      assert b ==> exists k :: 0 < k < |names| && names[k] in columns by {
        if b {
          var k :| 0 <= k < |names[1..]| && names[1..][k] in columns;
          assert names[k + 1] in columns;
        }
      }
      b
  }

  /** One entry holds: an empty name always, a plain name when present, a tuple when one of its names is. */
  predicate Satisfied(columns: seq<string>, req: Requirement) {
    match req
    case Column(n) => n == "" || n in columns
    case AnyOf(ns) => exists k :: 0 <= k < |ns| && ns[k] in columns
  }

  /** `has_requirements(df, req)` */
  function HasRequirements(columns: seq<string>, req: seq<Requirement>): (ok: bool)
    ensures ok <==> forall i :: 0 <= i < |req| ==> Satisfied(columns, req[i])
  {
    if req == [] then true
    else
      var first := match req[0]
        case Column(n) => n == "" || n in columns
        case AnyOf(ns) => AnyPresent(ns, columns);
      var rest := HasRequirements(columns, req[1..]);
      assert rest <==> forall i :: 1 <= i < |req| ==> Satisfied(columns, req[i]) by {
        assert forall i :: 1 <= i < |req| ==> req[i] == req[1..][i - 1];
      }
      first && rest
  }

  /** The first of `names` that is a column. */
  function FirstPresent(names: seq<string>, columns: seq<string>): (r: Option<string>)
    ensures r.None? <==> forall k :: 0 <= k < |names| ==> names[k] !in columns
    ensures r.Some? ==> exists k :: 0 <= k < |names| && names[k] == r.value && r.value in columns
                          && forall j :: 0 <= j < k ==> names[j] !in columns
  {
    if names == [] then None
    else if names[0] in columns then Some(names[0])
    else
      var r := FirstPresent(names[1..], columns);
      assert r.Some? ==> exists k :: 0 < k < |names| && names[k] == r.value && r.value in columns
                           && forall j :: 0 <= j < k ==> names[j] !in columns by {
        if r.Some? {
          var k :| 0 <= k < |names[1..]| && names[1..][k] == r.value && r.value in columns
                   && forall j :: 0 <= j < k ==> names[1..][j] !in columns;
          assert forall j :: 1 <= j < k + 1 ==> names[j] == names[1..][j - 1];
        }
      }
      r
  }

  const RegionNames: seq<string> := ["sales_region", "customer_state"]
  const PriceNames: seq<string> := ["unit_price", "sale_price", "unitprice", "price"]

  /** `resolve_region_column(df)`: `sales_region` if present, else `customer_state`, else `None`. */
  function ResolveRegionColumn(columns: seq<string>): (r: Option<string>)
    ensures "sales_region" in columns ==> r == Some("sales_region")
    ensures "sales_region" !in columns && "customer_state" in columns ==> r == Some("customer_state")
    ensures "sales_region" !in columns && "customer_state" !in columns ==> r == None
  {
    if "sales_region" in columns then Some("sales_region")
    else if "customer_state" in columns then Some("customer_state")
    else None
  }

  /** The region tuple requirement holds exactly when a region column resolves. */
  lemma RegionResolves(columns: seq<string>)
    ensures Satisfied(columns, AnyOf(RegionNames)) <==> ResolveRegionColumn(columns).Some?
  {
    if ResolveRegionColumn(columns).Some? {
      if "sales_region" in columns {
        assert RegionNames[0] in columns;
      } else {
        assert RegionNames[1] in columns;
      }
    }
  }

  /** `resolve_unit_price_column(df)`: the first present of the four price names. */
  function ResolveUnitPriceColumn(columns: seq<string>): (r: Option<string>)
    ensures r.None? <==> forall k :: 0 <= k < |PriceNames| ==> PriceNames[k] !in columns
    ensures r.Some? ==> r.value in columns && r.value in PriceNames
  {
    FirstPresent(PriceNames, columns)
  }

  /** A tuple requirement holds exactly when resolving over the same names finds a column. */
  lemma AnyOfResolves(names: seq<string>, columns: seq<string>)
    ensures Satisfied(columns, AnyOf(names)) <==> FirstPresent(names, columns).Some?
  {
  }

  /** The dashboard's analytics: the ten core menu entries, then the three extras. */
  datatype Analytic =
    | FirstRows | SalesByRegionOrderType | AvgSalesRegionStateType | SalesCustomerTypeOrderType
    | QtySalesRegionProduct | QtySalesCustomerType | MaxMinPriceCategory | EmployeesByRegion
    | CustomPivotTable | ExitProgram
    | SavedResults | CompareResults | PercentRegionProduct

  /** The core entries in menu order. */
  const CoreMenu: seq<Analytic> := [
    FirstRows, SalesByRegionOrderType, AvgSalesRegionStateType, SalesCustomerTypeOrderType,
    QtySalesRegionProduct, QtySalesCustomerType, MaxMinPriceCategory, EmployeesByRegion,
    CustomPivotTable, ExitProgram]

  /** The entries appended after the filtered core. */
  const Extras: seq<Analytic> := [SavedResults, CompareResults, PercentRegionProduct]

  /** The position an entry has in the full list of definitions. */
  function Rank(a: Analytic): nat {
    match a
    case FirstRows => 1
    case SalesByRegionOrderType => 2
    case AvgSalesRegionStateType => 3
    case SalesCustomerTypeOrderType => 4
    case QtySalesRegionProduct => 5
    case QtySalesCustomerType => 6
    case MaxMinPriceCategory => 7
    case EmployeesByRegion => 8
    case CustomPivotTable => 9
    case ExitProgram => 10
    case SavedResults => 11
    case CompareResults => 12
    case PercentRegionProduct => 13
  }

  /** The menu label. */
  function Label(a: Analytic): string {
    match a
    case FirstRows => "Show the first n rows of sales data"
    case SalesByRegionOrderType => "Total sales by region and order_type"
    case AvgSalesRegionStateType => "Average sales by region with average sales by state and sale type"
    case SalesCustomerTypeOrderType => "Sales by customer type and order type by state"
    case QtySalesRegionProduct => "Total sales quantity and price by region and product"
    case QtySalesCustomerType => "Total sales quantity and price customer type"
    case MaxMinPriceCategory => "Max and min sales price of sales by category"
    case EmployeesByRegion => "Number of unique employees by region"
    case CustomPivotTable => "Create a custom pivot table"
    case ExitProgram => "Exit"
    case SavedResults => "[Extra] Show saved results"
    case CompareResults => "[Extra] Compare two saved results"
    case PercentRegionProduct => "[Extra] % of qty & sales by region/product"
  }

  /** The seven analytics whose `required_map` entry lists columns. */
  predicate Checked(a: Analytic) {
    || a.SalesByRegionOrderType? || a.AvgSalesRegionStateType? || a.SalesCustomerTypeOrderType?
    || a.QtySalesRegionProduct? || a.QtySalesCustomerType? || a.MaxMinPriceCategory? || a.EmployeesByRegion?
  }

  /** `required_map` as `load_sales_data` builds it. */
  function RequiredMap(a: Analytic): (r: seq<Requirement>)
    ensures |r| <= 4
    ensures r == [] <==> !Checked(a)
    ensures forall q :: q in r && q.AnyOf? ==> q.names == RegionNames || q.names == PriceNames
  {
    match a
    case SalesByRegionOrderType => [Column("sales"), Column("order_type")]
    case AvgSalesRegionStateType => [Column("sales"), Column("order_type"), Column("customer_state")]
    case SalesCustomerTypeOrderType =>
      [Column("sales"), Column("customer_type"), Column("order_type"), Column("customer_state")]
    case QtySalesRegionProduct =>
      [Column("quantity"), Column("sales"), AnyOf(RegionNames), Column("product_category")]
    case QtySalesCustomerType => [Column("quantity"), Column("sales"), Column("customer_type"), Column("order_type")]
    case MaxMinPriceCategory => [AnyOf(PriceNames), Column("product_category")]
    case EmployeesByRegion => [Column("employee_id"), AnyOf(RegionNames)]
    case _ => []
  }

  /** `required_map` with the region requirement that the total-sales analytic needs. */
  function RequiredMapFixed(a: Analytic): (r: seq<Requirement>)
    ensures RequiredMap(a) <= r
    ensures a != SalesByRegionOrderType ==> r == RequiredMap(a)
    ensures a == SalesByRegionOrderType ==> r == RequiredMap(a) + [AnyOf(RegionNames)]
  {
    match a
    case SalesByRegionOrderType => [Column("sales"), Column("order_type"), AnyOf(RegionNames)]
    case _ => RequiredMap(a)
  }

  /**
   * The column check each analytic itself makes after `with_subset` (same
   * columns as the loaded frame); it prints "Missing required columns." and
   * returns `None` when the check fails.
   */
  function AnalyticAccepts(a: Analytic, columns: seq<string>): bool {
    var region := ResolveRegionColumn(columns).Some?;
    match a
    case SalesByRegionOrderType => region && "order_type" in columns && "sales" in columns
    case AvgSalesRegionStateType =>
      region && "order_type" in columns && "customer_state" in columns && "sales" in columns
    case SalesCustomerTypeOrderType =>
      "customer_state" in columns && "customer_type" in columns && "order_type" in columns && "sales" in columns
    case QtySalesRegionProduct =>
      region && "product_category" in columns && "quantity" in columns && "sales" in columns
    case QtySalesCustomerType =>
      "customer_type" in columns && "order_type" in columns && "quantity" in columns && "sales" in columns
    case MaxMinPriceCategory => ResolveUnitPriceColumn(columns).Some? && "product_category" in columns
    case EmployeesByRegion => region && "employee_id" in columns
    case PercentRegionProduct =>
      region && "product_category" in columns && "quantity" in columns && "sales" in columns
    case _ => true
  }

  /** The entries of `items` whose requirements hold, in order. */
  function KeepSatisfied(items: seq<Analytic>, columns: seq<string>, required: Analytic -> seq<Requirement>)
    : (r: seq<Analytic>)
    ensures forall a :: a in r <==> a in items && HasRequirements(columns, required(a))
    ensures |r| <= |items|
  {
    if items == [] then []
    else
      var kept := KeepSatisfied(items[..|items| - 1], columns, required);
      var a := items[|items| - 1];
      assert items == items[..|items| - 1] + [a];
      if HasRequirements(columns, required(a)) then kept + [a] else kept
  }

  /** `build_menu(df, required_map)`: the core entries that pass, in order, then the extras. */
  method BuildMenu(columns: seq<string>, required: Analytic -> seq<Requirement>) returns (menu: seq<Analytic>)
    ensures menu == KeepSatisfied(CoreMenu, columns, required) + Extras
  {
    var filtered: seq<Analytic> := [];
    var i := 0;
    while i < |CoreMenu|
      invariant 0 <= i <= |CoreMenu|
      invariant filtered == KeepSatisfied(CoreMenu[..i], columns, required)
    {
      var item := CoreMenu[i];
      assert CoreMenu[..i + 1][..i] == CoreMenu[..i];
      if HasRequirements(columns, required(item)) {
        filtered := filtered + [item];
      }
      i := i + 1;
    }
    assert CoreMenu[..i] == CoreMenu;
    menu := filtered + Extras;
  }

  /** The entries are listed in strictly increasing rank. */
  predicate RankOrdered(s: seq<Analytic>) {
    forall i, j :: 0 <= i < j < |s| ==> Rank(s[i]) < Rank(s[j])
  }

  /** The filtered entries keep the order of the definitions. */
  lemma {:induction false} KeepSatisfiedOrdered(items: seq<Analytic>, columns: seq<string>,
                                                required: Analytic -> seq<Requirement>)
    requires RankOrdered(items)
    ensures RankOrdered(KeepSatisfied(items, columns, required))
  {
    if items != [] {
      var p := items[..|items| - 1];
      var a := items[|items| - 1];
      KeepSatisfiedOrdered(p, columns, required);
      var kept := KeepSatisfied(p, columns, required);
      forall b | b in kept
        ensures Rank(b) < Rank(a)
      {
        assert b in p;
        var m :| 0 <= m < |p| && p[m] == b;
        assert items[m] == b;
      }
      if HasRequirements(columns, required(a)) {
        var r := kept + [a];
        assert KeepSatisfied(items, columns, required) == r;
        forall i, j | 0 <= i < j < |r|
          ensures Rank(r[i]) < Rank(r[j])
        {
          if j == |kept| {
            assert r[i] == kept[i] && r[j] == a && kept[i] in kept;
            assert Rank(kept[i]) < Rank(a);
          } else {
            assert r[i] == kept[i] && r[j] == kept[j];
          }
        }
      }
    }
  }

  /** The definitions are listed in rank order, core entries first. */
  lemma MenuRanks()
    ensures RankOrdered(CoreMenu)
    ensures forall a :: a in CoreMenu ==> Rank(a) <= 10
    ensures forall i :: 0 <= i < |Extras| ==> Rank(Extras[i]) == 11 + i
  {
    forall i | 0 <= i < |CoreMenu|
      ensures Rank(CoreMenu[i]) == i + 1
    {
    }
  }

  /**
   * What `build_menu` promises: the core entries appear in their defined
   * order, exactly those whose requirements hold, followed by the three
   * extras; the first-rows, custom-pivot and exit entries, which need
   * nothing, are always there.
   */
  lemma MenuShape(columns: seq<string>)
    ensures var menu := KeepSatisfied(CoreMenu, columns, RequiredMap) + Extras;
            && menu[|menu| - 3..] == Extras
            && RankOrdered(menu)
            && (forall a :: a in CoreMenu ==> (a in menu <==> HasRequirements(columns, RequiredMap(a))))
            && FirstRows in menu && CustomPivotTable in menu && ExitProgram in menu
  {
    var kept := KeepSatisfied(CoreMenu, columns, RequiredMap);
    MenuRanks();
    KeepSatisfiedOrdered(CoreMenu, columns, RequiredMap);
    var menu := kept + Extras;
    forall i, j | 0 <= i < j < |menu|
      ensures Rank(menu[i]) < Rank(menu[j])
    {
      if j < |kept| {
        assert menu[i] == kept[i] && menu[j] == kept[j];
      } else if i < |kept| {
        assert menu[i] == kept[i] && kept[i] in kept;
        assert menu[j] == Extras[j - |kept|];
      } else {
        assert menu[i] == Extras[i - |kept|] && menu[j] == Extras[j - |kept|];
      }
    }
  }

  /**
   * As written, `required_map` lets the total-sales entry onto the menu for
   * a frame whose analytic then refuses it for want of a region column.
   */
  lemma TotalSalesOfferedWithoutRegion()
    ensures var columns := ["sales", "order_type"];
            && SalesByRegionOrderType in KeepSatisfied(CoreMenu, columns, RequiredMap)
            && !AnalyticAccepts(SalesByRegionOrderType, columns)
  {
    var columns := ["sales", "order_type"];
    assert HasRequirements(columns, RequiredMap(SalesByRegionOrderType));
    assert SalesByRegionOrderType in CoreMenu;
  }

  /** With the corrected map every core entry the menu offers passes its analytic's own check. */
  lemma FixedMenuOffersOnlyRunnable(columns: seq<string>, a: Analytic)
    requires a in KeepSatisfied(CoreMenu, columns, RequiredMapFixed)
    ensures AnalyticAccepts(a, columns)
  {
    assert HasRequirements(columns, RequiredMapFixed(a));
    FixedRequirementsSuffice(columns, a);
  }

  /**
   * Every corrected requirement list implies its analytic's own column
   * check (the percentage analytic, an extra, has no list).
   */
  lemma FixedRequirementsSuffice(columns: seq<string>, a: Analytic)
    requires HasRequirements(columns, RequiredMapFixed(a))
    requires a != PercentRegionProduct
    ensures AnalyticAccepts(a, columns)
  {
    var req := RequiredMapFixed(a);
    assert forall i :: 0 <= i < |req| ==> Satisfied(columns, req[i]);
    RegionResolves(columns);
    match a
    case SalesByRegionOrderType =>
      assert Satisfied(columns, req[0]) && Satisfied(columns, req[1]) && Satisfied(columns, req[2]);
    case AvgSalesRegionStateType =>
      assert Satisfied(columns, req[0]) && Satisfied(columns, req[1]) && Satisfied(columns, req[2]);
      assert RegionNames[1] in columns;
    case SalesCustomerTypeOrderType =>
      assert Satisfied(columns, req[0]) && Satisfied(columns, req[1]);
      assert Satisfied(columns, req[2]) && Satisfied(columns, req[3]);
    case QtySalesRegionProduct =>
      assert Satisfied(columns, req[0]) && Satisfied(columns, req[1]);
      assert Satisfied(columns, req[2]) && Satisfied(columns, req[3]);
    case QtySalesCustomerType =>
      assert Satisfied(columns, req[0]) && Satisfied(columns, req[1]);
      assert Satisfied(columns, req[2]) && Satisfied(columns, req[3]);
    case MaxMinPriceCategory =>
      assert Satisfied(columns, req[0]) && Satisfied(columns, req[1]);
    case EmployeesByRegion =>
      assert Satisfied(columns, req[0]) && Satisfied(columns, req[1]);
    case _ =>
  }

  // ---------------------------------------------------------------------------
  // Pickers
  // ---------------------------------------------------------------------------

  /** `int(x.strip())` for each comma-separated token. */
  function Parsed(tokens: seq<string>): (r: seq<Option<int>>)
    ensures |r| == |tokens| && forall i :: 0 <= i < |tokens| ==> r[i] == ParseInt(Strip(tokens[i]))
  {
    seq(|tokens|, i requires 0 <= i < |tokens| => ParseInt(Strip(tokens[i])))
  }

  /**
   * The picks of `get_multi_choice` from the parsed tokens: each in-range
   * number adds its option, an out-of-range one adds nothing, and the first
   * token `int()` refuses ends the parse.
   */
  function Picks<T>(options: seq<T>, values: seq<Option<int>>): (r: seq<T>)
    ensures |r| <= |values|
    ensures forall x :: x in r ==> x in options
  {
    if values == [] then []
    else match values[0]
      case None => []
      case Some(k) => Pick(options, k) + Picks(options, values[1..])
  }

  /** The option numbered `k` from 1, or nothing when `k` is out of range. */
  function Pick<T>(options: seq<T>, k: int): (r: seq<T>)
    ensures 1 <= k <= |options| ==> r == [options[k - 1]]
    ensures !(1 <= k <= |options|) ==> r == []
  {
    if 1 <= k <= |options| then [options[k - 1]] else []
  }

  /** `get_multi_choice(options, prompt)` on the line typed: an empty line picks nothing. */
  function MultiChoice<T>(options: seq<T>, line: string): (r: seq<T>)
    ensures forall x :: x in r ==> x in options
    ensures Strip(line) == [] ==> r == []
    ensures Strip(line) != [] ==> |r| <= |Split(Strip(line), ',')|
  {
    var raw := Strip(line);
    if raw == [] then [] else Picks(options, Parsed(Split(raw, ',')))
  }

  /** The loop of `get_multi_choice`. */
  method GetMultiChoice<T>(options: seq<T>, line: string) returns (out: seq<T>)
    ensures out == MultiChoice(options, line)
  {
    var raw := Strip(line);
    if raw == [] {
      return [];
    }
    var tokens := Split(raw, ',');
    ghost var values := Parsed(tokens);
    assert values[0..] == values;
    assert Picks(options, values) == [] + Picks(options, values[0..]);
    out := [];
    var i := 0;
    while i < |tokens|
      invariant 0 <= i <= |tokens|
      invariant Picks(options, values) == out + Picks(options, values[i..])
    {
      var k := ParseInt(Strip(tokens[i]));
      assert k == values[i];
      ghost var before := out;
      if k.None? {
        PicksStopHere(options, values, i, out);
        return;
      }
      PicksAdvance(options, values, i, out);
      if 1 <= k.value <= |options| {
        out := out + [options[k.value - 1]];
      }
      assert out == before + Pick(options, k.value);
      i := i + 1;
    }
    assert values[i..] == [];
  }

  /** One step of `Picks` from position `i`. */
  lemma PicksFrom<T>(options: seq<T>, values: seq<Option<int>>, i: nat)
    requires i < |values|
    ensures values[i].None? ==> Picks(options, values[i..]) == []
    ensures values[i].Some? ==>
              Picks(options, values[i..])
              == Pick(options, values[i].value) + Picks(options, values[i + 1..])
  {
    assert values[i..][0] == values[i] && values[i..][1..] == values[i + 1..];
  }

  /** The loop's invariant survives a token `int()` accepts. */
  lemma PicksAdvance<T>(options: seq<T>, values: seq<Option<int>>, i: nat, out: seq<T>)
    requires i < |values| && values[i].Some?
    requires Picks(options, values) == out + Picks(options, values[i..])
    ensures var k := values[i].value;
            Picks(options, values) == out + Pick(options, k) + Picks(options, values[i + 1..])
  {
    PicksFrom(options, values, i);
    var k := values[i].value;
    AppendAssoc(out, Pick(options, k), Picks(options, values[i + 1..]));
  }

  lemma AppendAssoc<T>(a: seq<T>, b: seq<T>, c: seq<T>)
    ensures a + (b + c) == (a + b) + c
  {
  }

  /** A token `int()` refuses ends the loop with the invariant's picks. */
  lemma PicksStopHere<T>(options: seq<T>, values: seq<Option<int>>, i: nat, out: seq<T>)
    requires i < |values| && values[i].None?
    requires Picks(options, values) == out + Picks(options, values[i..])
    ensures Picks(options, values) == out
  {
    PicksFrom(options, values, i);
    assert out + [] == out;
  }

  /** The tokens `str(k)` for each `k`. */
  function Numerals(ks: seq<nat>): (r: seq<string>)
    ensures |r| == |ks| && forall i :: 0 <= i < |ks| ==> r[i] == NatToString(ks[i])
  {
    seq(|ks|, i requires 0 <= i < |ks| => NatToString(ks[i]))
  }

  /** Each numeral reads back as its number. */
  lemma ParsedNumerals(ks: seq<nat>)
    ensures Parsed(Numerals(ks)) == seq(|ks|, i requires 0 <= i < |ks| => Some(ks[i] as int))
  {
    forall i | 0 <= i < |ks|
      ensures Parsed(Numerals(ks))[i] == Some(ks[i] as int)
    {
      ParseIntStrip(NatToString(ks[i]));
      ParseIntOfNatToString(ks[i]);
    }
  }

  /** In-range numbers pick their options in the order given, repeats included. */
  lemma {:induction false} PicksOfNumbers<T>(options: seq<T>, ks: seq<nat>)
    requires forall i :: 0 <= i < |ks| ==> 1 <= ks[i] <= |options|
    ensures Picks(options, seq(|ks|, i requires 0 <= i < |ks| => Some(ks[i] as int)))
         == seq(|ks|, i requires 0 <= i < |ks| => options[ks[i] - 1])
  {
    if ks != [] {
      var vs := seq(|ks|, i requires 0 <= i < |ks| => Some(ks[i] as int));
      assert vs[1..] == seq(|ks[1..]|, i requires 0 <= i < |ks[1..]| => Some(ks[1..][i] as int));
      PicksOfNumbers(options, ks[1..]);
    }
  }

  /** A refused token ends the picks: what comes after it is ignored. */
  lemma {:induction false} PicksStopAtRefusal<T>(options: seq<T>, values: seq<Option<int>>, i: nat)
    requires i < |values| && values[i].None?
    ensures Picks(options, values) == Picks(options, values[..i])
  {
    var pre := values[..i];
    if i > 0 {
      assert pre[0] == values[0];
      if values[0].Some? {
        assert values[1..][..i - 1] == pre[1..];
        PicksStopAtRefusal(options, values[1..], i - 1);
      }
    }
  }

  /** Typing `k1,k2,...` with every number in range selects exactly those options, in order. */
  lemma MultiChoiceOfList<T>(options: seq<T>, ks: seq<nat>)
    requires |ks| > 0
    requires forall i :: 0 <= i < |ks| ==> 1 <= ks[i] <= |options|
    ensures MultiChoice(options, Join(Numerals(ks), ',')) == seq(|ks|, i requires 0 <= i < |ks| => options[ks[i] - 1])
  {
    NumeralList(ks);
    ParsedNumerals(ks);
    PicksOfNumbers(options, ks);
  }

  /** Numerals joined by commas: nothing to strip, no colon, and splitting at the commas gives them back. */
  lemma NumeralList(ks: seq<nat>)
    requires |ks| > 0
    ensures var line := Join(Numerals(ks), ',');
            && line != [] && Strip(line) == line && ':' !in line
            && Split(line, ',') == Numerals(ks)
  {
    NumeralsPlain(ks);
    DigitList(Numerals(ks));
    DigitEndsUnstripped(Join(Numerals(ks), ','));
  }

  /** The same for any list of digit strings, whose joined line starts and ends with a digit. */
  lemma DigitList(parts: seq<string>)
    requires |parts| > 0
    requires forall k :: 0 <= k < |parts| ==> IsDigitString(parts[k]) && ',' !in parts[k] && ':' !in parts[k]
    ensures var line := Join(parts, ',');
            && |line| > 0 && IsDigit(line[0]) && IsDigit(line[|line| - 1]) && ':' !in line
            && Split(line, ',') == parts
  {
    JoinOfNumerals(parts, ',');
    JoinAvoids(parts, ',', ':');
    SplitOfJoin(parts, ',');
  }

  /** A string that starts and ends with a digit has nothing to strip. */
  lemma DigitEndsUnstripped(s: string)
    requires |s| > 0 && IsDigit(s[0]) && IsDigit(s[|s| - 1])
    ensures Strip(s) == s
  {
    StripUnchanged(s);
  }

  /** Every numeral is all digits, so neither a comma nor a colon. */
  lemma NumeralsPlain(ks: seq<nat>)
    ensures var parts := Numerals(ks);
            forall k :: 0 <= k < |parts| ==> IsDigitString(parts[k]) && ',' !in parts[k] && ':' !in parts[k]
  {
    var parts := Numerals(ks);
    forall k | 0 <= k < |parts|
      ensures IsDigitString(parts[k]) && ',' !in parts[k] && ':' !in parts[k]
    {
      NumeralHasNoSeparator(parts[k], ',');
      NumeralHasNoSeparator(parts[k], ':');
    }
  }

  lemma NumeralHasNoSeparator(s: string, sep: char)
    requires IsDigitString(s) && !IsDigit(sep)
    ensures sep !in s
  {
  }

  /** A joined list of numerals starts and ends with a digit. */
  lemma {:induction false} JoinOfNumerals(parts: seq<string>, sep: char)
    requires |parts| >= 1 && forall k :: 0 <= k < |parts| ==> IsDigitString(parts[k])
    ensures var s := Join(parts, sep); |s| > 0 && IsDigit(s[0]) && IsDigit(s[|s| - 1])
  {
    if |parts| > 1 {
      JoinOfNumerals(parts[1..], sep);
    }
  }

  // ---------------------------------------------------------------------------
  // Row range
  // ---------------------------------------------------------------------------

  /** The positions `lo, lo+1, ..., hi-1` (none when `hi <= lo`). */
  function Range(lo: nat, hi: nat): (r: seq<nat>)
    ensures |r| == if lo <= hi then hi - lo else 0
    ensures forall k :: 0 <= k < |r| ==> r[k] == lo + k
  {
    if lo < hi then seq(hi - lo, k requires 0 <= k < hi - lo => lo + k) else []
  }

  /** A position is in the range exactly when it lies between the ends. */
  lemma RangeMembers(lo: nat, hi: nat)
    ensures forall k :: k in Range(lo, hi) <==> lo <= k < hi
  {
    var r := Range(lo, hi);
    forall k | lo <= k < hi
      ensures k in r
    {
      assert r[k - lo] == k;
    }
  }

  /** A slice bound as Python reads it for a sequence of length `n`: negatives count from the end, then clamp. */
  function SliceBound(i: int, n: nat): (b: nat)
    ensures b <= n
    ensures 0 <= i <= n ==> b == i
    ensures -(n as int) <= i < 0 ==> b == i + n
    ensures i > n ==> b == n
    ensures i < -(n as int) ==> b == 0
  {
    if i < 0 then (if i + n < 0 then 0 else i + n) else if i > n then n else i
  }

  /** `x.strip().isdigit()` holds for the token `t`, and `int(x)` is then `v`. */
  predicate TokenValue(t: string, v: nat) {
    IsDigitString(Strip(t)) && DigitsValue(Strip(t)) == v
  }

  /**
   * `[int(x) for x in tokens if x.strip().isdigit()]`: the values of exactly
   * the tokens that are digit strings once stripped (`DigitTokensAppend`
   * gives their order).
   */
  function DigitTokens(tokens: seq<string>): (r: seq<nat>)
    ensures |r| <= |tokens|
  {
    if tokens == [] then [] else TokenKept(tokens[0]) + DigitTokens(tokens[1..])
  }

  /** What one token contributes: its value when it is a digit string once stripped. */
  function TokenKept(t: string): (r: seq<nat>)
    ensures |r| <= 1
    ensures forall v :: v in r <==> TokenValue(t, v)
  {
    if IsDigitString(Strip(t)) then [DigitsValue(Strip(t))] else []
  }

  /** The values kept are exactly those of the digit tokens. */
  lemma {:induction false} DigitTokensMembers(tokens: seq<string>)
    ensures forall v :: v in DigitTokens(tokens) <==> exists k :: 0 <= k < |tokens| && TokenValue(tokens[k], v)
  {
    if tokens != [] {
      DigitTokensMembers(tokens[1..]);
      forall v
        ensures v in DigitTokens(tokens) <==> exists k :: 0 <= k < |tokens| && TokenValue(tokens[k], v)
      {
        if v in DigitTokens(tokens[1..]) {
          var k :| 0 <= k < |tokens[1..]| && TokenValue(tokens[1..][k], v);
          assert tokens[1..][k] == tokens[k + 1];
        }
        if exists k :: 0 <= k < |tokens| && TokenValue(tokens[k], v) {
          var k :| 0 <= k < |tokens| && TokenValue(tokens[k], v);
          if k > 0 {
            assert tokens[1..][k - 1] == tokens[k];
          }
        }
      }
    }
  }

  /** A token in front contributes what it keeps, before the rest. */
  lemma DigitTokensCons(t: string, rest: seq<string>)
    ensures DigitTokens([t] + rest) == TokenKept(t) + DigitTokens(rest)
  {
    assert ([t] + rest)[1..] == rest;
  }

  /** The kept values of two token lists put together are those of each, in order. */
  lemma {:induction false} DigitTokensAppend(a: seq<string>, b: seq<string>)
    ensures DigitTokens(a + b) == DigitTokens(a) + DigitTokens(b)
  {
    if a == [] {
      assert a + b == b;
    } else {
      assert a + b == [a[0]] + (a[1..] + b);
      DigitTokensCons(a[0], a[1..] + b);
      DigitTokensAppend(a[1..], b);
    }
  }

  /** One token: its value when it is a digit string once stripped, and nothing otherwise. */
  lemma DigitTokensSingle(t: string)
    ensures DigitTokens([t]) == if IsDigitString(Strip(t)) then [DigitsValue(Strip(t))] else []
  {
    assert [t][1..] == [];
    assert TokenKept(t) + [] == TokenKept(t);
  }

  /** A slice end: an empty text means the default, anything else goes through `int()`. */
  function BoundOrDefault(text: string, default: int): (r: Option<int>)
    ensures text == [] ==> r == Some(default)
    ensures text != [] ==> r == ParseInt(text)
  {
    if text == [] then Some(default) else ParseInt(text)
  }

  /**
   * The `start:end` branch: exactly two pieces, each empty (a default) or an
   * integer; any other number of pieces, or a piece `int()` refuses, raises
   * and falls back to all rows.
   */
  function SliceRows(parts: seq<string>, n: nat): (r: seq<nat>)
    ensures forall k :: 0 <= k < |r| ==> r[k] < n
    ensures |parts| != 2 ==> r == Range(0, n)
    ensures |parts| == 2 && (BoundOrDefault(parts[0], 0).None? || BoundOrDefault(parts[1], n).None?) ==> r == Range(0, n)
    ensures |parts| == 2 && parts[0] == [] && parts[1] == [] ==> r == Range(0, n)
    ensures |parts| == 2 && BoundOrDefault(parts[0], 0).Some? && BoundOrDefault(parts[1], n).Some? ==>
              forall k :: k in r <==>
                SliceBound(BoundOrDefault(parts[0], 0).value, n) <= k < SliceBound(BoundOrDefault(parts[1], n).value, n)
  {
    if |parts| != 2 then Range(0, n)
    else match (BoundOrDefault(parts[0], 0), BoundOrDefault(parts[1], n))
      case (Some(s), Some(e)) =>
        RangeMembers(SliceBound(s, n), SliceBound(e, n));
        Range(SliceBound(s, n), SliceBound(e, n))
      case _ => Range(0, n)
  }

  /** The list branch: `iloc[idxs]`, with an out-of-range position raising `IndexError`. */
  function ListRows(idxs: seq<nat>, n: nat): (r: seq<nat>)
    ensures forall k :: 0 <= k < |r| ==> r[k] < n
    ensures (forall k :: 0 <= k < |idxs| ==> idxs[k] < n) ==> r == idxs
    ensures (exists k :: 0 <= k < |idxs| && idxs[k] >= n) ==> r == Range(0, n)
  {
    if forall k :: 0 <= k < |idxs| ==> idxs[k] < n then idxs else Range(0, n)
  }

  /**
   * `ask_row_range(df)` on a frame of `n` rows: the positions of the rows
   * kept. Every failure (`ValueError` from the unpacking or `int()`,
   * `IndexError` from `iloc`) falls back to all rows.
   */
  function RowRange(line: string, n: nat): (r: seq<nat>)
    ensures forall k :: 0 <= k < |r| ==> r[k] < n
    ensures Strip(line) == [] ==> r == Range(0, n)
  {
    var ans := Strip(line);
    if ans == [] then Range(0, n)
    else if ':' in ans then SliceRows(Split(ans, ':'), n)
    else ListRows(DigitTokens(Split(ans, ',')), n)
  }

  /** `lo:hi` with `lo <= hi <= n` keeps exactly the rows `lo` to `hi - 1`. */
  lemma RowRangeSlice(lo: nat, hi: nat, n: nat)
    requires lo <= hi <= n
    ensures RowRange(NatToString(lo) + ":" + NatToString(hi), n) == Range(lo, hi)
  {
    var a, b := NatToString(lo), NatToString(hi);
    var line := a + ":" + b;
    NumeralsAroundSeparator(a, b, ':');
    assert Strip(line) == line && ':' in line && Split(line, ':') == [a, b];
    SliceOfNumerals(lo, hi, n);
  }

  lemma NumeralsAroundSeparator(a: string, b: string, sep: char)
    requires IsDigitString(a) && IsDigitString(b) && !IsDigit(sep) && !IsSpace(sep)
    ensures var line := a + [sep] + b;
            Strip(line) == line && sep in line && Split(line, sep) == [a, b]
  {
    var line := a + [sep] + b;
    assert line[0] == a[0] && line[|line| - 1] == b[|b| - 1] && line[|a|] == sep;
    StripUnchanged(line);
    NumeralHasNoSeparator(a, sep);
    NumeralHasNoSeparator(b, sep);
    SplitAfterPiece(a, b, sep);
    SplitWithoutSeparator(b, sep);
  }

  lemma SliceOfNumerals(lo: nat, hi: nat, n: nat)
    requires lo <= hi <= n
    ensures SliceRows([NatToString(lo), NatToString(hi)], n) == Range(lo, hi)
  {
    ParseIntOfNatToString(lo);
    ParseIntOfNatToString(hi);
  }

  /** `:` alone keeps every row. */
  lemma RowRangeOpenSlice(n: nat)
    ensures RowRange(":", n) == Range(0, n)
  {
    assert ":" == [] + [':'] + [];
    StripUnchanged(":");
    SplitAfterPiece([], [], ':');
    assert Split(":", ':') == [[], []];
  }

  /** A comma list of row numbers, all below `n`, keeps exactly those rows in the order typed. */
  lemma RowRangeList(ks: seq<nat>, n: nat)
    requires |ks| > 0 && forall i :: 0 <= i < |ks| ==> ks[i] < n
    ensures RowRange(Join(Numerals(ks), ','), n) == ks
  {
    NumeralList(ks);
    DigitTokensOfNumerals(ks);
    assert ListRows(ks, n) == ks;
  }

  /** An unpadded answer with a colon takes the slice branch. */
  lemma SliceBranch(line: string, n: nat)
    requires line != [] && Strip(line) == line && ':' in line
    ensures RowRange(line, n) == SliceRows(Split(line, ':'), n)
  {
  }

  /** `lo:` keeps the rows from `lo` to the end, by the default `len(df)`. */
  lemma RowRangeFrom(lo: nat, n: nat)
    requires lo <= n
    ensures RowRange(NatToString(lo) + ":", n) == Range(lo, n)
  {
    var a := NatToString(lo);
    var line := a + ":";
    assert line == a + [':'] + [] && line[|a|] == ':';
    NumeralHasNoSeparator(a, ':');
    SplitTwo(a, [], ':');
    UnpaddedJoin(a, ':', []);
    SliceBranch(line, n);
    ParseIntOfNatToString(lo);
    assert SliceRows([a, []], n) == Range(lo, n);
  }

  /** Two pieces without the separator, joined by it, split back into them. */
  lemma SplitTwo(a: string, b: string, sep: char)
    requires sep !in a && sep !in b
    ensures Split(a + [sep] + b, sep) == [a, b]
  {
    SplitAfterPiece(a, b, sep);
    SplitWithoutSeparator(b, sep);
  }

  /** Pieces around a non-space separator, the first starting and the last ending unpadded, need no strip. */
  lemma UnpaddedJoin(a: string, sep: char, b: string)
    requires !IsSpace(sep)
    requires a == [] || !IsSpace(a[0])
    requires b == [] || !IsSpace(b[|b| - 1])
    ensures Strip(a + [sep] + b) == a + [sep] + b
  {
    var line := a + [sep] + b;
    assert line[0] == if a == [] then sep else a[0];
    assert line[|line| - 1] == if b == [] then sep else b[|b| - 1];
    StripUnchanged(line);
  }

  /** `:hi` keeps the rows from the first up to `hi`, by the default 0. */
  lemma RowRangeUpTo(hi: nat, n: nat)
    requires hi <= n
    ensures RowRange(":" + NatToString(hi), n) == Range(0, hi)
  {
    var b := NatToString(hi);
    var line := ":" + b;
    assert line == [':'] + b;
    UpToSplit(b, ':');
    SliceBranch(line, n);
    ParseIntOfNatToString(hi);
    assert SliceRows([[], b], n) == Range(0, hi);
  }

  lemma UpToSplit(b: string, sep: char)
    requires IsDigitString(b) && !IsDigit(sep) && !IsSpace(sep)
    ensures var line := [sep] + b; Strip(line) == line && sep in line && Split(line, sep) == [[], b]
  {
    var line := [sep] + b;
    assert line[0] == sep;
    assert line == [] + [sep] + b;
    UnpaddedJoin([], sep, b);
    NumeralHasNoSeparator(b, sep);
    SplitTwo([], b, sep);
  }

  /** A second colon (`1:2:3`) makes the unpacking fail: every row is kept. */
  lemma RowRangeExtraColon(a: nat, b: nat, c: nat, n: nat)
    ensures RowRange(NatToString(a) + ":" + NatToString(b) + ":" + NatToString(c), n) == Range(0, n)
  {
    ExtraColonDigits(NatToString(a), NatToString(b), NatToString(c), n);
  }

  lemma ExtraColonDigits(x: string, y: string, z: string, n: nat)
    requires IsDigitString(x) && IsDigitString(y) && IsDigitString(z)
    ensures RowRange(x + ":" + y + ":" + z, n) == Range(0, n)
  {
    var line := x + [':'] + (y + [':'] + z);
    assert x + ":" + y + ":" + z == line;
    ThreePieces(x, y, z, ':');
    SliceBranch(line, n);
  }

  lemma ThreePieces(x: string, y: string, z: string, sep: char)
    requires IsDigitString(x) && IsDigitString(y) && IsDigitString(z) && !IsDigit(sep) && !IsSpace(sep)
    ensures var line := x + [sep] + (y + [sep] + z);
            Strip(line) == line && sep in line && |Split(line, sep)| == 3
  {
    var tail := y + [sep] + z;
    var line := x + [sep] + tail;
    NumeralHasNoSeparator(x, sep);
    NumeralHasNoSeparator(y, sep);
    NumeralHasNoSeparator(z, sep);
    SplitTwo(y, z, sep);
    SplitAfterPiece(x, tail, sep);
    assert tail[|tail| - 1] == z[|z| - 1];
    UnpaddedJoin(x, sep, tail);
    assert line[|x|] == sep;
  }

  /** A start that `int()` refuses (`a:3`) falls back to every row. */
  lemma RowRangeBadStart(start: string, hi: nat, n: nat)
    requires start != [] && !IsSpace(start[0]) && ':' !in start
    requires forall i :: 0 <= i < |start| ==> !IsDigit(start[i])
    ensures RowRange(start + ":" + NatToString(hi), n) == Range(0, n)
  {
    var b := NatToString(hi);
    var line := start + ":" + b;
    assert line[0] == start[0] && line[|line| - 1] == b[|b| - 1] && line[|start|] == ':';
    StripUnchanged(line);
    NumeralHasNoSeparator(b, ':');
    SplitAfterPiece(start, b, ':');
    SplitWithoutSeparator(b, ':');
    ParseIntNeedsDigit(start);
  }

  /**
   * A comma list without a colon keeps the rows of its digit tokens, the
   * others (`x` in `1,x,3`) being dropped before `iloc`.
   */
  lemma RowRangeTokens(tokens: seq<string>, n: nat)
    requires |tokens| >= 1
    requires forall k :: 0 <= k < |tokens| ==> ',' !in tokens[k] && ':' !in tokens[k]
    requires Strip(Join(tokens, ',')) == Join(tokens, ',') != []
    ensures RowRange(Join(tokens, ','), n) == ListRows(DigitTokens(tokens), n)
  {
    JoinAvoids(tokens, ',', ':');
    SplitOfJoin(tokens, ',');
  }

  lemma {:induction false} JoinAvoids(parts: seq<string>, sep: char, c: char)
    requires |parts| >= 1 && c != sep && forall k :: 0 <= k < |parts| ==> c !in parts[k]
    ensures c !in Join(parts, sep)
  {
    if |parts| > 1 {
      JoinAvoids(parts[1..], sep, c);
    }
  }

  lemma {:induction false} DigitTokensOfNumerals(ks: seq<nat>)
    ensures DigitTokens(Numerals(ks)) == ks
  {
    if ks != [] {
      assert Numerals(ks) == [NatToString(ks[0])] + Numerals(ks[1..]);
      DigitTokensCons(NatToString(ks[0]), Numerals(ks[1..]));
      TokenKeptNumeral(ks[0]);
      DigitTokensOfNumerals(ks[1..]);
      assert ks == [ks[0]] + ks[1..];
    }
  }

  /** A printed count is kept as its value. */
  lemma TokenKeptNumeral(k: nat)
    ensures TokenKept(NatToString(k)) == [k]
  {
    StripUnchanged(NatToString(k));
    NatToStringValue(k);
  }

  // ---------------------------------------------------------------------------
  // First rows, the result store and comparisons
  // ---------------------------------------------------------------------------

  /**
   * How `display_initial_rows` reads its answer for a frame of `total`
   * rows: the number of rows to show, or `None` when it skips or refuses.
   */
  function InitialRows(line: string, total: nat): (r: Option<nat>)
    ensures Strip(line) == [] ==> r == None
    ensures r.Some? ==> r.value <= total
    ensures var c := Lower(Strip(line));
            r.Some? <==> c == "all" || (IsDigitString(c) && 1 <= DigitsValue(c) <= total)
    ensures var c := Lower(Strip(line)); c == "all" ==> r == Some(total)
    ensures var c := Lower(Strip(line)); IsDigitString(c) && 1 <= DigitsValue(c) <= total ==> r == Some(DigitsValue(c))
  {
    var choice := Lower(Strip(line));
    if choice == "" then None
    else if choice == "all" then Some(total)
    else if !IsDigitString(choice) then None
    else
      var n := DigitsValue(choice);
      if 1 <= n <= total then Some(n) else None
  }

  /** A listed row count (spaces allowed) is accepted, and only counts from 1 to `total` are. */
  lemma InitialRowsNumber(n: nat, total: nat, pad: string)
    requires forall i :: 0 <= i < |pad| ==> IsSpace(pad[i])
    ensures InitialRows(pad + NatToString(n) + pad, total) == if 1 <= n <= total then Some(n) else None
  {
    var s := NatToString(n);
    StripPadded(s, pad);
    LowerDigits(s);
    NatToStringValue(n);
  }

  /** `all` in any letter case, with any padding, shows the whole table. */
  lemma InitialRowsAll(total: nat, pad: string, word: string)
    requires forall i :: 0 <= i < |pad| ==> IsSpace(pad[i])
    requires Lower(word) == "all"
    ensures InitialRows(pad + word + pad, total) == Some(total)
  {
    assert |word| == 3 && !IsSpace(word[0]) && !IsSpace(word[2]) by {
      assert LowerChar(word[0]) == 'a' && LowerChar(word[2]) == 'l';
    }
    StripPadded(word, pad);
  }

  /** The name `display_initial_rows` stores its result under. */
  const FirstRowsName: string := "First_n_rows"

  /** The global `analytics_store`: names in insertion order, and the table under each. */
  class AnalyticsStore {
    var names: seq<string>
    var tables: map<string, Frame>

    /** Every name appears once, and the names are exactly the stored keys. */
    ghost predicate Valid()
      reads this
    {
      && (forall i, j :: 0 <= i < j < |names| ==> names[i] != names[j])
      && (forall k :: k in tables <==> k in names)
    }

    constructor ()
      ensures Valid() && names == [] && tables == map[]
    {
      names := [];
      tables := map[];
    }

    /**
     * `add_to_store(name, table)`: a table is stored under `name`,
     * replacing an older one in place; anything that is not a table
     * (`None` here) is ignored.
     */
    method AddToStore(name: string, table: Option<Frame>)
      requires Valid()
      modifies this
      ensures Valid()
      ensures table.None? ==> names == old(names) && tables == old(tables)
      ensures table.Some? ==> tables == old(tables)[name := table.value]
      ensures table.Some? ==> names == if name in old(names) then old(names) else old(names) + [name]
    {
      if table.Some? {
        if name !in names {
          names := names + [name];
        }
        tables := tables[name := table.value];
      }
    }

    /**
     * `display_initial_rows(df)`: the rows shown and stored under
     * `First_n_rows`, or `None` with the store untouched.
     */
    method DisplayInitialRows(f: Frame, line: string) returns (out: Option<Frame>)
      requires Valid()
      modifies this
      ensures Valid()
      ensures InitialRows(line, f.rows).None? ==> out == None && names == old(names) && tables == old(tables)
      ensures InitialRows(line, f.rows).Some? ==>
                && out == Some(Head(f, InitialRows(line, f.rows).value))
                && tables == old(tables)[FirstRowsName := out.value]
                && names == if FirstRowsName in old(names) then old(names) else old(names) + [FirstRowsName]
    {
      var n := InitialRows(line, f.rows);
      if n.None? {
        return None;
      }
      out := Some(Head(f, n.value));
      AddToStore(FirstRowsName, out);
    }
  }

  /** What `compare_two_results` shows. */
  datatype Comparison = NeedTwoResults | InvalidSelection | Shown(first: string, second: string)

  /** Python's `keys[i]`: negative positions count from the end. */
  function PyIndex(i: int, n: nat): (r: Option<nat>)
    ensures r.Some? <==> -(n as int) <= i < n
    ensures r.Some? ==> r.value < n && r.value == (if i < 0 then i + n else i)
  {
    if -(n as int) <= i < n then Some(if i < 0 then i + n else i) else None
  }

  /** The stored name a typed number picks: `keys[int(line) - 1]`. */
  function PickKey(keys: seq<string>, line: string): (r: Option<string>)
    ensures r.Some? <==> ParseInt(line).Some? && -|keys| < ParseInt(line).value <= |keys|
  {
    match ParseInt(line)
    case None => None
    case Some(a) =>
      match PyIndex(a - 1, |keys|)
      case None => None
      case Some(i) => Some(keys[i])
  }

  /**
   * `compare_two_results()` over the store's names in insertion order and
   * the two numbers typed.
   */
  function CompareTwoResults(keys: seq<string>, first: string, second: string): (r: Comparison)
    ensures r == NeedTwoResults <==> |keys| < 2
    ensures |keys| >= 2 ==> (r.Shown? <==> PickKey(keys, first).Some? && PickKey(keys, second).Some?)
    ensures r.Shown? ==> r.first in keys && r.second in keys
  {
    if |keys| < 2 then NeedTwoResults
    else match (PickKey(keys, first), PickKey(keys, second))
      case (Some(k1), Some(k2)) => Shown(k1, k2)
      case _ => InvalidSelection
  }

  /** Answers that `int()` reads as 1 to `|keys|` pick the listed names. */
  lemma CompareListed(keys: seq<string>, first: string, second: string, a: int, b: int)
    requires |keys| >= 2 && 1 <= a <= |keys| && 1 <= b <= |keys|
    requires ParseInt(first) == Some(a) && ParseInt(second) == Some(b)
    ensures CompareTwoResults(keys, first, second) == Shown(keys[a - 1], keys[b - 1])
  {
    PickKeyOf(keys, first, a);
    PickKeyOf(keys, second, b);
  }

  /** A number in range picks by Python's indexing of `keys` at `v - 1`. */
  lemma PickKeyOf(keys: seq<string>, line: string, v: int)
    requires ParseInt(line) == Some(v) && -|keys| < v <= |keys|
    ensures PickKey(keys, line) == Some(keys[if v - 1 < 0 then v - 1 + |keys| else v - 1])
  {
  }

  /** An answer that `int()` reads as 0 does not refuse: it picks the last stored name. */
  lemma CompareZeroWraps(keys: seq<string>, first: string, second: string, b: int)
    requires |keys| >= 2 && 1 <= b <= |keys|
    requires ParseInt(first) == Some(0) && ParseInt(second) == Some(b)
    ensures CompareTwoResults(keys, first, second) == Shown(keys[|keys| - 1], keys[b - 1])
  {
    PickKeyOf(keys, first, 0);
    PickKeyOf(keys, second, b);
  }

  /** `str(k)` is such an answer for `k`. */
  lemma CompareTyped(keys: seq<string>, a: nat, b: nat)
    requires |keys| >= 2 && 1 <= a <= |keys| && 1 <= b <= |keys|
    ensures CompareTwoResults(keys, NatToString(a), NatToString(b)) == Shown(keys[a - 1], keys[b - 1])
  {
    ParseIntOfNatToString(a);
    ParseIntOfNatToString(b);
    CompareListed(keys, NatToString(a), NatToString(b), a, b);
  }

  // ---------------------------------------------------------------------------
  // Custom pivot options and the main menu
  // ---------------------------------------------------------------------------

  /** Every pick is one of the options, and there are at most as many picks as tokens. */
  lemma {:induction false} PicksFromOptions<T>(options: seq<T>, values: seq<Option<int>>)
    ensures |Picks(options, values)| <= |values|
    ensures forall x :: x in Picks(options, values) ==> x in options
  {
    if values != [] && values[0].Some? {
      PicksFromOptions(options, values[1..]);
    }
  }

  /** Whatever is typed, only listed options come back. */
  lemma MultiChoiceMembers<T>(options: seq<T>, line: string)
    ensures forall x :: x in MultiChoice(options, line) ==> x in options
  {
    var raw := Strip(line);
    if raw != [] {
      PicksFromOptions(options, Parsed(Split(raw, ',')));
    }
  }

  /** The choices `custom_pivot` passes to `pivot_table`. */
  datatype PivotPlan = PivotPlan(rows: seq<string>, cols: seq<string>, values: seq<string>, agg: string)

  /** Where `custom_pivot` stops. */
  datatype PivotOutcome = NoRows | NoNumericColumns | NoValues | NoAggregation | Build(plan: PivotPlan)

  const Aggregations: seq<string> := ["sum", "mean", "count"]

  /**
   * The option steps of `custom_pivot(df)` on the frame after the subset
   * filters, given the four answers typed.
   */
  function CustomPivot(f: Frame, rowsLine: string, colsLine: string, valuesLine: string, aggLine: string)
    : (r: PivotOutcome)
    ensures r == NoRows <==> MultiChoice(f.columns, rowsLine) == []
    ensures r == NoNumericColumns <==> MultiChoice(f.columns, rowsLine) != [] && f.numeric == []
    ensures r == NoValues <==>
              MultiChoice(f.columns, rowsLine) != [] && f.numeric != [] && MultiChoice(f.numeric, valuesLine) == []
    ensures r.Build? ==>
              && r.plan.rows == MultiChoice(f.columns, rowsLine) != []
              && (forall c :: c in r.plan.rows ==> c in f.columns)
              && r.plan.cols == MultiChoice(Without(f.columns, r.plan.rows), colsLine)
              && (forall c :: c in r.plan.cols ==> c in f.columns && c !in r.plan.rows)
              && r.plan.values == MultiChoice(f.numeric, valuesLine) != []
              && (forall v :: v in r.plan.values ==> v in f.numeric)
              && Choose(Aggregations, aggLine) == Some(r.plan.agg) && r.plan.agg in Aggregations
    ensures r == NoAggregation ==> Choose(Aggregations, aggLine) == None
  {
    var rows := MultiChoice(f.columns, rowsLine);
    if rows == [] then NoRows
    else
      var cols := MultiChoice(Without(f.columns, rows), colsLine);
      if f.numeric == [] then NoNumericColumns
      else
        var values := MultiChoice(f.numeric, valuesLine);
        if values == [] then NoValues
        else match Choose(Aggregations, aggLine)
          case None => NoAggregation
          case Some(agg) =>
            MultiChoiceMembers(f.columns, rowsLine);
            MultiChoiceMembers(Without(f.columns, rows), colsLine);
            MultiChoiceMembers(f.numeric, valuesLine);
            Build(PivotPlan(rows, cols, values, agg))
  }

  /** `show_menu(menu)`: re-prompts until a number from 1 to the menu's length. */
  method ShowMenu(menu: seq<Analytic>, lines: seq<string>) returns (r: Reply<int>)
    ensures r.Accepted? ==> 0 < r.used <= |lines| && 1 <= r.value <= |menu|
    ensures r.Accepted? ==> ParseInt(lines[r.used - 1]) == Some(r.value)
    ensures r.Exhausted? <==> forall j :: 0 <= j < |lines| ==> NumberBetween(lines[j], 1, |menu|).None?
  {
    r := ReadMenuChoice(lines, |menu|);
  }
}
