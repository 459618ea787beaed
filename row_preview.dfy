/**
 * The row preview and the column check of Assgn2/Ex3.py and Assgn2/Ex4.py
 * (the same code in both files): `display_rows`, which re-prompts until
 * the typed answer is Enter, "all" or a row count, and the list of required
 * columns the file checks before it uses them. A table is its row count,
 * and standard input is the sequence of lines typed.
 */
module RowPreview {
  import opened Wrappers
  import opened Text
  import opened Prompt

  /** The columns the script needs before it computes sales. */
  const RequiredColumns: seq<string> := [
    "quantity", "unit_price", "order_date", "customer_state", "customer_type", "order_type"]

  /** The outcome of the column check: go on, or the `ValueError` naming the missing columns. */
  datatype ColumnCheck = Ready | Missing(names: seq<string>)

  /** `if missing_columns: raise ValueError(...)` */
  function CheckColumns(columns: seq<string>): (r: ColumnCheck)
    ensures r == Ready <==> forall c :: c in RequiredColumns ==> c in columns
    ensures r.Missing? ==> r.names != [] && forall c :: c in r.names <==> c in RequiredColumns && c !in columns
  {
    var missing := Without(RequiredColumns, columns);
    if missing != [] then
      assert missing[0] in missing;
      Missing(missing)
    else
      assert forall c :: c in RequiredColumns ==> c in columns by {
        forall c | c in RequiredColumns
          ensures c in columns
        {
          assert c !in missing;
        }
      }
      Ready
  }

  /** What the preview does: nothing, the whole table, or its first `n` rows. */
  datatype Preview = Skip | ShowAll | ShowHead(n: nat)

  /**
   * One answer to the prompt for a table of `size` rows, stripped and
   * lower-cased; `None` is "Invalid input", which prompts again. A count
   * must lie strictly below `size`.
   */
  function ClassifyRows(line: string, size: nat): (r: Option<Preview>)
    ensures r == Some(Skip) <==> Lower(Strip(line)) == ""
    ensures r == Some(ShowAll) <==> Lower(Strip(line)) == "all"
    ensures r.Some? && r.value.ShowHead? ==>
              && IsDigitString(Lower(Strip(line)))
              && r.value.n == DigitsValue(Lower(Strip(line)))
              && 1 <= r.value.n < size
    ensures var c := Lower(Strip(line));
            IsDigitString(c) && 1 <= DigitsValue(c) < size ==> r == Some(ShowHead(DigitsValue(c)))
    ensures var c := Lower(Strip(line));
            r.None? <==> c != "" && c != "all" && !(IsDigitString(c) && 1 <= DigitsValue(c) < size)
  {
    var choice := Lower(Strip(line));
    if choice == "" then Some(Skip)
    else if choice == "all" then Some(ShowAll)
    else if IsDigitString(choice) && 1 <= DigitsValue(choice) < size then Some(ShowHead(DigitsValue(choice)))
    else None
  }

  /** The answer test of the loop for a table of `size` rows. */
  function RowsAnswer(size: nat): string -> Option<Preview> {
    line => ClassifyRows(line, size)
  }

  /** `display_rows(dataframe)` for a table of `size` rows. */
  method DisplayRows(size: nat, lines: seq<string>) returns (r: Reply<Preview>)
    ensures r == FirstAccepted(lines, RowsAnswer(size))
  {
    r := ReadUntilAccepted(lines, RowsAnswer(size));
  }

  /** "all" in any letter case and with any padding, such as " ALL ", shows everything. */
  lemma AllInAnyCase(size: nat, pad: string, word: string)
    requires forall i :: 0 <= i < |pad| ==> IsSpace(pad[i])
    requires Lower(word) == "all"
    ensures ClassifyRows(pad + word + pad, size) == Some(ShowAll)
  {
    assert |word| == 3 && !IsSpace(word[0]) && !IsSpace(word[2]) by {
      assert LowerChar(word[0]) == 'a' && LowerChar(word[2]) == 'l';
    }
    StripPadded(word, pad);
  }

  /** A typed count (spaces allowed) is accepted exactly when it lies in 1 .. size - 1. */
  lemma CountAccepted(n: nat, size: nat, pad: string)
    requires forall i :: 0 <= i < |pad| ==> IsSpace(pad[i])
    ensures ClassifyRows(pad + NatToString(n) + pad, size) == if 1 <= n < size then Some(ShowHead(n)) else None
  {
    var s := NatToString(n);
    StripPadded(s, pad);
    LowerDigits(s);
    NatToStringValue(n);
  }

  /** A table of at most one row accepts no count at all: only Enter and "all" end the loop. */
  lemma TinyTableTakesNoCount(line: string, size: nat)
    requires size <= 1
    ensures ClassifyRows(line, size).Some? ==> ClassifyRows(line, size) in {Some(Skip), Some(ShowAll)}
  {
  }

  /**
   * The loop ends at the first valid answer, after refusing every line
   * before it; when no line is valid it never ends (input runs out).
   */
  lemma DisplayRowsStops(size: nat, lines: seq<string>, i: nat)
    requires i < |lines| && ClassifyRows(lines[i], size).Some?
    requires forall j :: 0 <= j < i ==> ClassifyRows(lines[j], size).None?
    ensures FirstAccepted(lines, RowsAnswer(size)) == Accepted(ClassifyRows(lines[i], size).value, i + 1)
  {
    FirstAcceptedAt(lines, RowsAnswer(size), i);
  }
}
