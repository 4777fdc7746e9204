/**
 * The combo table's sort/filter proxy: a row is shown when its combo belongs to the selected
 * group and the text of one of its columns matches the filter expression. The expression is
 * an abstract predicate on text; case-insensitive filtering applies it to case-folded text.
 */
module ComboFilter {

  import opened Wrappers
  import opened Combos
  import opened QStrings

  /** Whether the filter expression matches a cell text, under the configured case sensitivity. */
  predicate Matches(expression: string -> bool, caseInsensitive: bool, text: string) {
    expression(if caseInsensitive then FoldCase(text) else text)
  }

  /** The row rule: the combo's group is the selected one and some column's text matches. */
  predicate AcceptsRow(selected: Option<GroupId>, combo: Combo, columns: seq<string>,
                       expression: string -> bool, caseInsensitive: bool) {
    combo.group == selected && exists col :: 0 <= col < |columns| && Matches(expression, caseInsensitive, columns[col])
  }

  /** A row whose combo is in another group is never shown. */
  lemma OtherGroupIsNeverAccepted(selected: Option<GroupId>, combo: Combo, columns: seq<string>,
                                  expression: string -> bool, caseInsensitive: bool)
    requires combo.group != selected
    ensures !AcceptsRow(selected, combo, columns, expression, caseInsensitive)
  {
  }

  /** With no columns, no row is shown. */
  lemma NoColumnsNoRow(selected: Option<GroupId>, combo: Combo, expression: string -> bool, caseInsensitive: bool)
    ensures !AcceptsRow(selected, combo, [], expression, caseInsensitive)
  {
  }

  /** The decision does not depend on the order of the columns, hence not on which match is found first. */
  lemma ColumnOrderIsIrrelevant(selected: Option<GroupId>, combo: Combo, columns: seq<string>, reordered: seq<string>,
                                expression: string -> bool, caseInsensitive: bool)
    requires multiset(columns) == multiset(reordered)
    ensures AcceptsRow(selected, combo, columns, expression, caseInsensitive)
        == AcceptsRow(selected, combo, reordered, expression, caseInsensitive)
  {
    if exists col :: 0 <= col < |columns| && Matches(expression, caseInsensitive, columns[col]) {
      var col :| 0 <= col < |columns| && Matches(expression, caseInsensitive, columns[col]);
      assert columns[col] in multiset(reordered);
      var k :| 0 <= k < |reordered| && reordered[k] == columns[col];
    }
    if exists col :: 0 <= col < |reordered| && Matches(expression, caseInsensitive, reordered[col]) {
      var col :| 0 <= col < |reordered| && Matches(expression, caseInsensitive, reordered[col]);
      assert reordered[col] in multiset(columns);
      var k :| 0 <= k < |columns| && columns[k] == reordered[col];
    }
  }

  /** Under case-insensitive filtering, a text and its case-folded form match alike. */
  lemma CaseInsensitiveMatchIgnoresCase(expression: string -> bool, text: string)
    ensures Matches(expression, true, text) == Matches(expression, true, FoldCase(text))
  {
    FoldCaseIdempotent(text);
  }

  /** The proxy model's state: the selected group, the filter expression and the case settings. */
  class ComboSortFilterProxyModel {

    var group: Option<GroupId>
    var filterExpression: string -> bool
    var sortCaseInsensitive: bool
    var filterCaseInsensitive: bool

    /** No group selected, the empty expression (which matches every text), case-insensitive sorting and filtering. */
    constructor ()
      ensures group == None
      ensures forall text :: filterExpression(text)
      ensures sortCaseInsensitive && filterCaseInsensitive
    {
      group := None;
      filterExpression := (text: string) => true;
      sortCaseInsensitive := true;
      filterCaseInsensitive := true;
    }

    /** Selects the group whose combos are shown; every later row decision uses it. */
    method SetGroup(g: Option<GroupId>)
      modifies this`group
      ensures group == g
    {
      group := g;
    }

    /**
     * Whether the row of the combo at `sourceRow` is shown; `columns` holds that row's cell
     * texts. Scans the columns in order, rejecting as soon as the combo is in another group and
     * accepting at the first match.
     */
    method FilterAcceptsRow(sourceRow: int, rows: seq<Combo>, columns: seq<string>) returns (accepted: bool)
      requires columns != [] ==> 0 <= sourceRow < |rows|
      ensures accepted <==> columns != [] && AcceptsRow(group, rows[sourceRow], columns, filterExpression, filterCaseInsensitive)
    {
      var col := 0;
      while col < |columns|
        invariant 0 <= col <= |columns|
        invariant col > 0 ==> rows[sourceRow].group == group
        invariant forall k :: 0 <= k < col ==> !Matches(filterExpression, filterCaseInsensitive, columns[k])
      {
        var combo := rows[sourceRow];
        if combo.group != group {
          return false;
        }
        if Matches(filterExpression, filterCaseInsensitive, columns[col]) {
          return true;
        }
        col := col + 1;
      }
      return false;
    }
  }
}
