/**
 * The combo editor's decision rules: the ordered rejection checks, the duplicate-keyword and
 * prefix-conflict checks against every other combo, the OK-button rule, the short-keyword
 * confirmation, and the assignment of the edited fields to the combo on acceptance.
 * The keyword validator is an abstract predicate and every modal answer is an input.
 */
module ComboDialogs {

  import opened Wrappers
  import opened Combos
  import opened QStrings

  /** The answers the user would give to each modal box the editor may show. */
  datatype Answers = Answers(
    continueWithDuplicate: bool,  // "Continue" rather than "Cancel" on the duplicate-keyword box
    continueWithConflicts: bool,  // "Yes" on the conflict box
    useShortKeyword: bool,        // "Yes" on the short-keyword box
    doNotWarnAgain: bool)         // the "Do not show this warning again." box is ticked

  /** Why a combo is rejected before any comparison with the other combos. */
  datatype Rejection = EmptySnippet | InvalidKeyword | InvalidGroup

  /** What the validity check reported, with the user's answer where a question was asked. */
  datatype Verdict =
    | Rejected(reason: Rejection)
    | DuplicateKeyword(proceed: bool)
    | Conflicts(count: nat, proceed: bool)
    | NoConflict

  /** Whether the check lets the edit go ahead. */
  predicate Proceeds(v: Verdict) {
    match v
    case Rejected(_) => false
    case DuplicateKeyword(p) => p
    case Conflicts(_, p) => p
    case NoConflict => true
  }

  /** The OK-button rule: acceptable keyword, non-empty plain snippet, a selected group. */
  predicate CanAccept(keyword: string, plainText: string, group: Option<GroupId>, isAcceptable: string -> bool) {
    isAcceptable(keyword) && plainText != [] && group.Some?
  }

  /** Another combo (by identity) that already uses exactly this keyword. */
  predicate IsDuplicate(existing: Combo, edited: ComboId, keyword: string): (b: bool)
    ensures b ==> IsConflict(existing, edited, keyword)
  {
    existing.id != edited && existing.keyword == keyword
  }

  /** Some other combo in the list already uses exactly this keyword; it is then also a conflict. */
  predicate HasDuplicate(combos: seq<Combo>, edited: ComboId, keyword: string): (b: bool)
    ensures b ==> exists i :: 0 <= i < |combos| && IsConflict(combos[i], edited, keyword)
  {
    exists i :: 0 <= i < |combos| && IsDuplicate(combos[i], edited, keyword)
  }

  /** Another combo (by identity) whose keyword is a prefix of this one, or has this one as a prefix. */
  predicate IsConflict(existing: Combo, edited: ComboId, keyword: string): (b: bool)
    ensures b ==> existing.id != edited
    ensures existing.id != edited && existing.keyword == keyword ==> b
  {
    existing.id != edited && (keyword <= existing.keyword || existing.keyword <= keyword)
  }

  /** Number of combos in conflict with the keyword, the edited combo excluded. */
  function ConflictCount(combos: seq<Combo>, edited: ComboId, keyword: string): (n: nat)
    ensures n <= |combos|
  {
    if combos == [] then 0
    else
      var init := combos[..|combos| - 1];
      ConflictCount(init, edited, keyword) + (if IsConflict(combos[|combos| - 1], edited, keyword) then 1 else 0)
  }

  /** The count is zero exactly when no other combo's keyword is in prefix conflict with the keyword. */
  lemma {:induction false} ConflictCountIsZeroIff(combos: seq<Combo>, edited: ComboId, keyword: string)
    ensures ConflictCount(combos, edited, keyword) == 0
            <==> forall i :: 0 <= i < |combos| ==> !IsConflict(combos[i], edited, keyword)
  {
    if combos != [] {
      var init := combos[..|combos| - 1];
      ConflictCountIsZeroIff(init, edited, keyword);
      assert forall i :: 0 <= i < |init| ==> init[i] == combos[i];
    }
  }

  /** Positions of the combos in conflict with the keyword. */
  function ConflictingPositions(combos: seq<Combo>, edited: ComboId, keyword: string): set<nat> {
    set i: nat | i < |combos| && IsConflict(combos[i], edited, keyword)
  }

  /** The conflict count is the number of other combos in conflict, one per position. */
  lemma {:induction false} ConflictCountIsCardinality(combos: seq<Combo>, edited: ComboId, keyword: string)
    ensures ConflictCount(combos, edited, keyword) == |ConflictingPositions(combos, edited, keyword)|
  {
    if combos != [] {
      var n := |combos| - 1;
      var init := combos[..n];
      ConflictCountIsCardinality(init, edited, keyword);
      var before := ConflictingPositions(init, edited, keyword);
      var after := ConflictingPositions(combos, edited, keyword);
      forall x: nat | x < n ensures x in after <==> x in before {
        assert combos[x] == init[x];
      }
      if IsConflict(combos[n], edited, keyword) {
        assert after == before + {n};
      } else {
        assert after == before;
      }
    }
  }

  /** The conflict relation is symmetric between two distinct combos. */
  lemma ConflictIsSymmetric(a: Combo, b: Combo)
    requires a.id != b.id
    ensures IsConflict(a, b.id, b.keyword) <==> IsConflict(b, a.id, a.keyword)
  {
  }

  /**
   * checkAndReportInvalidCombo: reject an empty snippet, then an invalid keyword, then a null
   * group; otherwise a combo with the same keyword leaves the decision to the duplicate box, and
   * only then are prefix conflicts counted, a non-zero count leaving it to the conflict box.
   */
  function CheckAndReportInvalidCombo(plainText: string, keyword: string, group: Option<GroupId>,
                                      isAcceptable: string -> bool, combos: seq<Combo>,
                                      edited: ComboId, answers: Answers): (v: Verdict)
    ensures v.Rejected? <==> !CanAccept(keyword, plainText, group, isAcceptable)
    ensures plainText == [] ==> v == Rejected(EmptySnippet)
    ensures plainText != [] && !isAcceptable(keyword) ==> v == Rejected(InvalidKeyword)
    ensures plainText != [] && isAcceptable(keyword) && group.None? ==> v == Rejected(InvalidGroup)
    ensures v.DuplicateKeyword? ==> v.proceed == answers.continueWithDuplicate
    ensures v.Conflicts? ==> v.count > 0 && v.proceed == answers.continueWithConflicts
  {
    if plainText == [] then Rejected(EmptySnippet)
    else if !isAcceptable(keyword) then Rejected(InvalidKeyword)
    else if group.None? then Rejected(InvalidGroup)
    else if HasDuplicate(combos, edited, keyword) then DuplicateKeyword(answers.continueWithDuplicate)
    else
      var count := ConflictCount(combos, edited, keyword);
      if count == 0 then NoConflict else Conflicts(count, answers.continueWithConflicts)
  }

  /**
   * Once the first checks pass, only the other combos decide: an exact duplicate goes to the
   * duplicate box and skips the conflict count; otherwise the count of prefix conflicts is
   * reported, and the combo is valid with no question exactly when no other combo conflicts.
   */
  lemma VerdictAfterFirstChecks(plainText: string, keyword: string, group: Option<GroupId>,
                                isAcceptable: string -> bool, combos: seq<Combo>,
                                edited: ComboId, answers: Answers)
    requires CanAccept(keyword, plainText, group, isAcceptable)
    ensures var v := CheckAndReportInvalidCombo(plainText, keyword, group, isAcceptable, combos, edited, answers);
            && (v.DuplicateKeyword? <==> HasDuplicate(combos, edited, keyword))
            && (v.Conflicts? ==> v.count == ConflictCount(combos, edited, keyword))
            && (v == NoConflict <==> forall i :: 0 <= i < |combos| ==> !IsConflict(combos[i], edited, keyword))
  {
    ConflictCountIsZeroIff(combos, edited, keyword);
  }

  /** `s` with `x` inserted at position `k`. */
  function InsertAt(s: seq<Combo>, k: nat, x: Combo): (r: seq<Combo>)
    requires k <= |s|
    ensures |r| == |s| + 1 && r[k] == x
    ensures forall i :: 0 <= i < k ==> r[i] == s[i]
    ensures forall i :: k < i < |r| ==> r[i] == s[i - 1]
  {
    s[..k] + [x] + s[k..]
  }

  lemma {:induction false} ConflictCountIgnoresEdited(combos: seq<Combo>, k: nat, self: Combo, keyword: string)
    requires k <= |combos|
    ensures ConflictCount(InsertAt(combos, k, self), self.id, keyword) == ConflictCount(combos, self.id, keyword)
  {
    var a, b := combos[..k], combos[k..];
    assert combos == a + b;
    assert InsertAt(combos, k, self) == (a + [self]) + b;
    ConflictCountOfConcat(a + [self], b, self.id, keyword);
    ConflictCountOfConcat(a, [self], self.id, keyword);
    ConflictCountOfConcat(a, b, self.id, keyword);
    assert [self][..0] == [];
  }

  /** Counting conflicts over two lists one after the other adds up the two counts. */
  lemma {:induction false} ConflictCountOfConcat(a: seq<Combo>, b: seq<Combo>, edited: ComboId, keyword: string)
    ensures ConflictCount(a + b, edited, keyword) == ConflictCount(a, edited, keyword) + ConflictCount(b, edited, keyword)
  {
    if b == [] {
      assert a + b == a;
    } else {
      var n := |b| - 1;
      ConflictCountOfConcat(a, b[..n], edited, keyword);
      assert (a + b)[..|a + b| - 1] == a + b[..n];
      assert (a + b)[|a + b| - 1] == b[n];
    }
  }

  /**
   * The combo being edited is never its own duplicate nor its own conflict: the verdict is the
   * same whether or not the edited combo appears in the list, wherever it appears.
   */
  lemma EditedComboIsNeverCounted(plainText: string, keyword: string, group: Option<GroupId>,
                                  isAcceptable: string -> bool, combos: seq<Combo>, k: nat,
                                  self: Combo, answers: Answers)
    requires k <= |combos|
    ensures CheckAndReportInvalidCombo(plainText, keyword, group, isAcceptable, InsertAt(combos, k, self), self.id, answers)
         == CheckAndReportInvalidCombo(plainText, keyword, group, isAcceptable, combos, self.id, answers)
  {
    ConflictCountIgnoresEdited(combos, k, self, keyword);
    DuplicateIgnoresEdited(combos, k, self, keyword);
  }

  lemma DuplicateIgnoresEdited(combos: seq<Combo>, k: nat, self: Combo, keyword: string)
    requires k <= |combos|
    ensures HasDuplicate(InsertAt(combos, k, self), self.id, keyword) == HasDuplicate(combos, self.id, keyword)
  {
    var s := InsertAt(combos, k, self);
    if HasDuplicate(s, self.id, keyword) {
      var i :| 0 <= i < |s| && IsDuplicate(s[i], self.id, keyword);
      assert i != k;
      var j := if i < k then i else i - 1;
      assert s[i] == combos[j];
    }
    if HasDuplicate(combos, self.id, keyword) {
      var i :| 0 <= i < |combos| && IsDuplicate(combos[i], self.id, keyword);
      var j := if i < k then i else i + 1;
      assert s[j] == combos[i];
    }
  }

  /**
   * The short-keyword box is shown only when the warning is on and the trimmed keyword is
   * shorter than 3 UTF-16 code units: a keyword of two characters is asked about unless one of
   * them lies above U+FFFF.
   */
  predicate AsksShortKeywordConfirmation(warnAboutShortKeywords: bool, keywordText: string): (b: bool)
    ensures b ==> warnAboutShortKeywords && |Trimmed(keywordText)| < 3
    ensures warnAboutShortKeywords && |Trimmed(keywordText)| < 2 ==> b
  {
    warnAboutShortKeywords && Utf16Length(Trimmed(keywordText)) < 3
  }

  /**
   * The short-keyword box: the user's Yes decides, and the "do not show this warning again"
   * check box rewrites the warning preference.
   */
  method ShowShortKeywordConfirmationDialog(answers: Answers) returns (yes: bool, warnAfter: bool)
    ensures yes == answers.useShortKeyword
    ensures warnAfter == !answers.doNotWarnAgain
  {
    warnAfter := !answers.doNotWarnAgain;
    yes := answers.useShortKeyword;
  }

  /** The combo editor's state: the combo being edited and the contents of its widgets. */
  class ComboDialog {

    var combo: Combo                  // the combo being edited
    var name: string                  // the name field
    var keywordText: string           // the keyword field
    var group: Option<GroupId>        // the selected group, possibly none
    var matchingIndex: int            // the current item of the matching-mode box (0 strict, 1 loose)
    var useHtmlIndex: int             // the current item of the snippet-format box (0 plain, 1 HTML)
    var plainText: string             // the snippet editor's content as plain text
    var html: string                  // the snippet editor's content as HTML
    var okEnabled: bool               // the OK button is enabled
    var editorLabelVisible: bool      // the rich-text editor label is shown
    var accepted: bool                // the dialog was accepted
    const isAcceptable: string -> bool  // the keyword validator answers "Acceptable"

    /**
     * Fills the widgets from the combo. `toPlain` and `toHtml` stand for the editor's own
     * conversions of an HTML snippet to plain text and of a plain snippet to HTML.
     */
    constructor (c: Combo, validator: string -> bool, toPlain: string -> string, toHtml: string -> string)
      ensures combo == c && isAcceptable == validator && !accepted
      ensures name == c.name && keywordText == c.keyword && group == c.group
      ensures MatchingComboValue() == c.useLooseMatching && UseHtmlComboValue() == c.useHtml
      ensures c.useHtml ==> html == c.snippet && plainText == toPlain(c.snippet)
      ensures !c.useHtml ==> plainText == c.snippet && html == toHtml(c.snippet)
      ensures okEnabled == CanAccept(keywordText, plainText, group, isAcceptable)
      ensures editorLabelVisible == c.useHtml
    {
      combo := c;
      isAcceptable := validator;
      accepted := false;
      name := c.name;
      group := c.group;
      matchingIndex := if c.useLooseMatching then 1 else 0;
      keywordText := c.keyword;
      useHtmlIndex := if c.useHtml then 1 else 0;
      if c.useHtml {
        html := c.snippet;
        plainText := toPlain(c.snippet);
      } else {
        plainText := c.snippet;
        html := toHtml(c.snippet);
      }
      okEnabled, editorLabelVisible := false, false;
      new;
      UpdateGui();
    }

    /** Selects the loose item (1) or the strict item (0); reading back gives the flag written. */
    method SetMatchingComboValue(useLooseMatching: bool)
      modifies this`matchingIndex
      ensures matchingIndex == (if useLooseMatching then 1 else 0)
      ensures MatchingComboValue() == useLooseMatching
    {
      matchingIndex := if useLooseMatching then 1 else 0;
    }

    /** Loose matching is selected when the current item is 1; on the two items, writing the value back keeps the item. */
    function MatchingComboValue(): (useLooseMatching: bool)
      reads this
      ensures matchingIndex == 0 || matchingIndex == 1 ==> matchingIndex == (if useLooseMatching then 1 else 0)
    {
      1 == matchingIndex
    }

    /** Selects the HTML item (1) or the plain item (0); reading back gives the flag written. */
    method SetUseHtmlComboValue(useHtml: bool)
      modifies this`useHtmlIndex
      ensures useHtmlIndex == (if useHtml then 1 else 0)
      ensures UseHtmlComboValue() == useHtml
    {
      useHtmlIndex := if useHtml then 1 else 0;
    }

    /** HTML is selected when the current item is not 0; on the two items, writing the value back keeps the item. */
    function UseHtmlComboValue(): (useHtml: bool)
      reads this
      ensures useHtmlIndex == 0 || useHtmlIndex == 1 ==> useHtmlIndex == (if useHtml then 1 else 0)
    {
      0 != useHtmlIndex
    }

    /** Enables OK exactly when the keyword validates, the plain snippet is non-empty and a group is selected. */
    method UpdateGui()
      modifies this`okEnabled, this`editorLabelVisible
      ensures okEnabled == CanAccept(keywordText, plainText, group, isAcceptable)
      ensures okEnabled <==> !CheckAndReportInvalidCombo(plainText, keywordText, group, isAcceptable, [], combo.id,
                                                         Answers(false, false, false, false)).Rejected?
      ensures editorLabelVisible == UseHtmlComboValue()
    {
      okEnabled := isAcceptable(keywordText) && plainText != [] && group.Some?;
      editorLabelVisible := UseHtmlComboValue();
    }

    /**
     * The combo holds what the widgets show: trimmed name and keyword, the selected group,
     * the matching mode and format read from their boxes, and the snippet in that format.
     */
    ghost predicate Stored(before: Combo)
      reads this
    {
      && combo.id == before.id
      && combo.name == Trimmed(name)
      && combo.keyword == Trimmed(keywordText)
      && combo.group == group
      && combo.useLooseMatching == MatchingComboValue()
      && combo.useHtml == UseHtmlComboValue()
      && combo.snippet == (if UseHtmlComboValue() then html else plainText)
    }

    /**
     * The setters the OK action applies, in order: trimmed name, selected group, matching mode,
     * trimmed keyword, format, then the snippet as HTML or plain text by that format.
     */
    method StoreEditedFields()
      modifies this`combo
      ensures Stored(old(combo))
    {
      var edited := combo;
      edited := edited.(name := Trimmed(name));
      edited := edited.(group := group);
      edited := edited.(useLooseMatching := MatchingComboValue());
      edited := edited.(keyword := Trimmed(keywordText));
      var useHtml := UseHtmlComboValue();
      edited := edited.(useHtml := useHtml);
      edited := edited.(snippet := if useHtml then html else plainText);
      combo := edited;
    }

    /**
     * The OK action: run the validity check, then the short-keyword confirmation, then store the
     * edited fields in the combo and accept the dialog. Returns the short-keyword warning
     * preference afterwards (the confirmation box rewrites it from its check box).
     */
    method OnActionOk(combos: seq<Combo>, warnAboutShortKeywords: bool, answers: Answers)
      returns (warnAfter: bool)
      modifies this`combo, this`accepted
      ensures var verdict := CheckAndReportInvalidCombo(plainText, keywordText, group, isAcceptable, combos,
                                                        old(combo).id, answers);
              var asked := Proceeds(verdict) && AsksShortKeywordConfirmation(warnAboutShortKeywords, keywordText);
              var proceed := Proceeds(verdict) && (!asked || answers.useShortKeyword);
              && warnAfter == (if asked then !answers.doNotWarnAgain else warnAboutShortKeywords)
              && accepted == (old(accepted) || proceed)
              && (proceed ==> Stored(old(combo)))
              && (!proceed ==> combo == old(combo))
    {
      warnAfter := warnAboutShortKeywords;
      var verdict := CheckAndReportInvalidCombo(plainText, keywordText, group, isAcceptable, combos, combo.id, answers);
      if !Proceeds(verdict) {
        return;
      }
      if AsksShortKeywordConfirmation(warnAboutShortKeywords, keywordText) {
        var yes;
        yes, warnAfter := ShowShortKeywordConfirmationDialog(answers);
        if !yes {
          return;
        }
      }
      StoreEditedFields();
      accepted := true;
    }
  }
}
