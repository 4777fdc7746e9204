# Beeftext combo editor, emoji list and combo filter — a Dafny model

Beeftext is a text-expansion tool: the user defines *combos* (a keyword that expands to a
snippet), organised in groups. This project models three pieces of its sequential logic and
proves their properties:

- **The emoji shortcode list** (`Emojis`): an ordered list of possibly-null emoji entries
  (shortcode, value). Appending, clearing, unchecked indexing, size, a shortcode lookup that
  yields the first non-null entry with that shortcode in list order, `contains` with the very
  same predicate, and a bounds-checked table-model accessor. The list is a class over a
  `seq<Option<Emoji>>`; the shared linear scan behind `contains` and `find` is a method with
  a loop (`FindIf`) proved against the specification function `Lookup`.
- **The combo editor's rules** (`ComboDialogs`): the ordered rejection checks (empty snippet,
  invalid keyword, no group), the duplicate-keyword check and the prefix-conflict count, both
  excluding the combo being edited by identity, the OK-button rule, the short-keyword
  confirmation, the two index/flag mappings of the matching-mode and format boxes, and the
  OK action that writes the edited fields into the combo. Combos are records with an id; the
  keyword validator is an abstract predicate; every answer the user gives to a message box is
  an input (`Answers`).
- **The combo table filter** (`ComboFilter`): a row is shown exactly when its combo belongs to
  the selected group and some column's text matches the filter expression. The expression is
  an abstract predicate; case-insensitive filtering applies it to case-folded text.

`Wrappers` holds `Option` (a nullable pointer), `Combos` the combo record and `QStrings` the
string operations the rules rely on: `trimmed()`, `size()` and case folding. A text is a
sequence of Unicode characters, and `size()` counts UTF-16 code units as a QString does, so a
character above U+FFFF counts twice in the short-keyword test.

A conflict is any other combo whose keyword is a prefix of the new keyword or has it as a
prefix, whatever the matching mode of either combo; an exact duplicate is reported separately
and only the user's Continue/Cancel answer decides it. The duplicate box says Beeftext picks
one of several same-keyword combos "randomly"; nothing in the modelled code chooses between
them.

Two observations the model makes explicit: the validity checks compare the keyword field as
typed, while the combo receives the trimmed keyword; and with no current item (index -1) the
matching box reads as strict while the format box reads as HTML (`MatchingComboValue` tests
`== 1`, `UseHtmlComboValue` tests `!= 0`). Both boxes always hold two items, so the second one
is not reachable through the dialog.

## Model

| member | source | states |
|---|---|---|
| `Emojis.HasShortcode` | Beeftext/Emoji/EmojiList.cpp:94-95 | The search predicate of `contains` and `find`: only a non-null entry can have the shortcode. |
| `Emojis.FirstMatch` | Beeftext/Emoji/EmojiList.cpp:104-109 | The position found is in range, its entry is non-null with the shortcode and no earlier entry has it; no position is found exactly when no entry has the shortcode. |
| `Emojis.Lookup` | Beeftext/Emoji/EmojiList.cpp:104-109 | The lookup is non-null exactly when some non-null entry has the shortcode, and a non-null result has that shortcode. |
| `Emojis.LookupIsFirstInOrder` | Beeftext/Emoji/EmojiList.cpp:106-108 | When the entry at `i` is the first with the shortcode, the lookup yields exactly that entry. |
| `Emojis.LookupAfterAppend` | Beeftext/Emoji/EmojiList.cpp:115-118 | After appending, an earlier match still wins; the new entry is found only when nothing before it matches and it is non-null with the shortcode. |
| `Emojis.NullEntriesNeverMatch` | Beeftext/Emoji/EmojiList.cpp:106-107 | Inserting a null entry anywhere never changes what a lookup yields. |
| `Emojis.ListedShortcodeIsFound` | Beeftext/Emoji/EmojiList.cpp:104-109 | Looking up the shortcode of a non-null entry finds that entry or an earlier one with the same shortcode. |
| `Emojis.EmojiList.constructor` | Beeftext/Emoji/EmojiList.cpp:18-21 | A new list is empty. |
| `Emojis.EmojiList.At` | Beeftext/Emoji/EmojiList.cpp:38-41 | Unchecked indexing: callable only for an index in range, yields the stored entry, null or not. |
| `Emojis.EmojiList.SetAt` | Beeftext/Emoji/EmojiList.cpp:28-31 | Writing through the mutable reference replaces that one entry and keeps the size. |
| `Emojis.EmojiList.Clear` | Beeftext/Emoji/EmojiList.cpp:83-86 | Afterwards the list is empty, its size is 0 and no shortcode is found. |
| `Emojis.EmojiList.FindIf` | Beeftext/Emoji/EmojiList.cpp:94-95 | The scan stops at the first non-null entry with the shortcode, or at the end when none has it. |
| `Emojis.EmojiList.Contains` | Beeftext/Emoji/EmojiList.cpp:92-96 | True exactly when some non-null entry has the shortcode, which is exactly when the lookup is non-null. |
| `Emojis.EmojiList.Find` | Beeftext/Emoji/EmojiList.cpp:104-109 | Yields the lookup: the first non-null entry with the shortcode in list order, or null. |
| `Emojis.EmojiList.Append` | Beeftext/Emoji/EmojiList.cpp:115-118 | The size grows by exactly one, the new entry is last and every earlier entry is unchanged. |
| `Emojis.EmojiList.Size` | Beeftext/Emoji/EmojiList.cpp:124-127 | The number of entries, null ones included. |
| `Emojis.EmojiList.RowCount` | Beeftext/Emoji/EmojiList.cpp:133-136 | Always 0, whatever the list holds. |
| `Emojis.EmojiList.ColumnCount` | Beeftext/Emoji/EmojiList.cpp:142-145 | Always 1, whatever the list holds. |
| `Emojis.EmojiList.Data` | Beeftext/Emoji/EmojiList.cpp:152-175 | A negative or too large row, or a null entry, gives an invalid variant; otherwise display and snippet roles give the value, the keyword role the shortcode, the group-name role "Emojis", the enabled role true, and timestamp or unknown roles an invalid variant. |
| `QStrings.Trimmed` | Beeftext/Combo/ComboDialog.cpp:182-186 | Trimming never lengthens the text. |
| `QStrings.TrimmedIsInnerSlice` | Beeftext/Combo/ComboDialog.cpp:182 | The trimmed text is the slice of the text between leading and trailing whitespace: empty exactly when the text is all whitespace, otherwise starting and ending with a non-space character. |
| `QStrings.Utf16Length` | Beeftext/Combo/ComboDialog.cpp:183 | The length in UTF-16 code units lies between the number of characters and twice that, and equals the number of characters exactly when none lies above U+FFFF. |
| `QStrings.FoldCase` | Combo/ComboSortFilterProxyModel.cpp:22 | Folds each character independently and keeps the length. |
| `ComboDialogs.CanAccept` | Beeftext/Combo/ComboDialog.cpp:217-218 | The OK-button rule: the keyword validates, the plain snippet is non-empty and a group is selected. |
| `ComboDialogs.IsDuplicate` | Beeftext/Combo/ComboDialog.cpp:116-117 | Another combo, by identity, with exactly this keyword; such a combo is always also a conflict. |
| `ComboDialogs.HasDuplicate` | Beeftext/Combo/ComboDialog.cpp:116-117 | Some other combo in the list has exactly this keyword; then some combo in the list is in conflict. |
| `ComboDialogs.IsConflict` | Beeftext/Combo/ComboDialog.cpp:124-125 | Never the edited combo itself, and always another combo with exactly the same keyword. |
| `ComboDialogs.ConflictCount` | Beeftext/Combo/ComboDialog.cpp:123-125 | The count of conflicts never exceeds the number of combos. |
| `ComboDialogs.ConflictCountIsZeroIff` | Beeftext/Combo/ComboDialog.cpp:123-126 | The count is zero exactly when no other combo's keyword is a prefix of the new keyword or has it as a prefix. |
| `ComboDialogs.ConflictCountOfConcat` | Beeftext/Combo/ComboDialog.cpp:123-125 | Counting over two lists one after the other gives the sum of the two counts. |
| `ComboDialogs.ConflictCountIsCardinality` | Beeftext/Combo/ComboDialog.cpp:123-125 | The count equals the number of positions holding another combo in prefix conflict with the keyword. |
| `ComboDialogs.ConflictIsSymmetric` | Beeftext/Combo/ComboDialog.cpp:124-125 | For two distinct combos, A conflicts with B's keyword exactly when B conflicts with A's keyword. |
| `ComboDialogs.CheckAndReportInvalidCombo` | Beeftext/Combo/ComboDialog.cpp:92-135 | Rejection happens exactly when the OK-button rule fails, in the fixed order empty snippet, invalid keyword, no group; a same-keyword verdict carries the Continue answer; a conflict verdict carries a non-zero count and the Yes answer. |
| `ComboDialogs.VerdictAfterFirstChecks` | Beeftext/Combo/ComboDialog.cpp:113-134 | Once the first checks pass, the duplicate question is asked exactly when another combo has the same keyword, a conflict verdict carries the number of prefix conflicts, and the combo is valid with no question exactly when no other combo conflicts. |
| `ComboDialogs.DuplicateIgnoresEdited` | Beeftext/Combo/ComboDialog.cpp:113-117 | Inserting the edited combo anywhere in the list does not create or remove a duplicate keyword. |
| `ComboDialogs.ShowShortKeywordConfirmationDialog` | Beeftext/Combo/ComboDialog.cpp:27-40 | Returns the user's Yes/No answer, and the new warning preference is the negation of the "do not show again" box. |
| `ComboDialogs.ConflictCountIgnoresEdited` | Beeftext/Combo/ComboDialog.cpp:123-124 | Inserting the edited combo anywhere in the list leaves the conflict count unchanged. |
| `ComboDialogs.EditedComboIsNeverCounted` | Beeftext/Combo/ComboDialog.cpp:113-125 | The verdict is the same whether or not the combo being edited is in the list, wherever it is: it is never its own duplicate or conflict. |
| `ComboDialogs.AsksShortKeywordConfirmation` | Beeftext/Combo/ComboDialog.cpp:182-183 | The short-keyword box is asked only with the warning on and the trimmed keyword shorter than 3 UTF-16 code units: so only for at most two characters, and always for at most one. |
| `ComboDialogs.ComboDialog.constructor` | Beeftext/Combo/ComboDialog.cpp:63-86 | The widgets show the combo's name, keyword, group, matching mode, format and snippet (as HTML or plain text by its format), and the OK button follows the OK-button rule. |
| `ComboDialogs.ComboDialog.SetMatchingComboValue` | Beeftext/Combo/ComboDialog.cpp:141-144 | Selects item 1 for loose and 0 for strict; reading the box back gives the flag written. |
| `ComboDialogs.ComboDialog.MatchingComboValue` | Beeftext/Combo/ComboDialog.cpp:150-153 | On the two items, writing the flag read back selects the same item. |
| `ComboDialogs.ComboDialog.SetUseHtmlComboValue` | Beeftext/Combo/ComboDialog.cpp:159-162 | Selects item 1 for HTML and 0 for plain text; reading the box back gives the flag written. |
| `ComboDialogs.ComboDialog.UseHtmlComboValue` | Beeftext/Combo/ComboDialog.cpp:168-171 | On the two items, writing the flag read back selects the same item. |
| `ComboDialogs.ComboDialog.UpdateGui` | Beeftext/Combo/ComboDialog.cpp:214-221 | OK is enabled exactly when the keyword validates, the plain snippet is non-empty and a group is selected, i.e. exactly when the validity check would not reject; the editor label shows in HTML mode. |
| `ComboDialogs.ComboDialog.StoreEditedFields` | Beeftext/Combo/ComboDialog.cpp:186-192 | The combo keeps its id and receives the trimmed name and keyword, the selected group, the matching mode, the format, and the HTML or plain snippet by that format. |
| `ComboDialogs.ComboDialog.OnActionOk` | Beeftext/Combo/ComboDialog.cpp:177-194 | Nothing changes unless the validity check lets the edit go ahead; the short-keyword box is asked only when the warning is on and the trimmed keyword is shorter than 3, and then its answer decides and its check box rewrites the warning preference; on acceptance the combo keeps its id and receives the trimmed name and keyword, the selected group, the matching mode, the format and the HTML or plain snippet by that format, and the dialog is accepted. |
| `ComboFilter.Matches` | Combo/ComboSortFilterProxyModel.cpp:49-50 | A cell text matches when the filter expression accepts it, case-folded first under case-insensitive filtering. |
| `ComboFilter.AcceptsRow` | Combo/ComboSortFilterProxyModel.cpp:44-53 | The row rule: the combo is in the selected group and some column's text matches. |
| `ComboFilter.OtherGroupIsNeverAccepted` | Combo/ComboSortFilterProxyModel.cpp:46-48 | A row whose combo is in another group than the selected one is never shown. |
| `ComboFilter.NoColumnsNoRow` | Combo/ComboSortFilterProxyModel.cpp:44-53 | With zero columns no row is shown. |
| `ComboFilter.ColumnOrderIsIrrelevant` | Combo/ComboSortFilterProxyModel.cpp:44-51 | Reordering the columns never changes the decision, so it does not matter which matching column the scan meets first. |
| `ComboFilter.CaseInsensitiveMatchIgnoresCase` | Combo/ComboSortFilterProxyModel.cpp:21-22 | Under case-insensitive filtering a text and its case-folded form match alike. |
| `ComboFilter.ComboSortFilterProxyModel.constructor` | Combo/ComboSortFilterProxyModel.cpp:18-23 | Sorting and filtering are case-insensitive, no group is selected and the empty expression matches every text. |
| `ComboFilter.ComboSortFilterProxyModel.SetGroup` | Combo/ComboSortFilterProxyModel.cpp:29-33 | The selected group becomes the one given; nothing else changes, and later row decisions use it. |
| `ComboFilter.ComboSortFilterProxyModel.FilterAcceptsRow` | Combo/ComboSortFilterProxyModel.cpp:40-54 | The row is shown exactly when there is at least one column, its combo is in the selected group and some column's text matches the filter under the configured case sensitivity. |

## Left out

- Every modal box (`QMessageBox`, the short-keyword box with its check box, `exec()`): the
  user's answers are the `Answers` input and the warning preference is an input and an output.
- `ComboDialog::run`, `onActionNewGroup` (creating a group through the group dialog) and
  `onUseHtmlChanged`: modal or rich-text editor behaviour, not decision logic.
- The rich-text editor: its HTML-to-plain and plain-to-HTML conversions are function
  parameters of the dialog's constructor.
- The keyword validator's class is not part of this model: it is an abstract predicate, and the
  fix-up `validate` may apply to its argument is not modelled.
- `ComboDialogs.ComboDialog.OnActionOk`: the combo is a value held by the dialog; that the same
  combo object is shared with the application's combo list (a shared pointer) is not modelled.
  The setters are applied in source order to a copy that is then stored.
- `ComboDialogs.ComboDialog.constructor`: making sure the group list is not empty and throwing
  on a null combo are not modelled (a combo value is never null).
- `Emojis.EmojiList.Data`: the row bound is compared with the list size cast to a 32-bit
  signed integer; that truncation, which only matters for 2^31 entries or more, is not modelled.
- `ComboDialogs.ConflictCount`: the conflict count is a 32-bit integer in the source; the model
  counts without bound.
- `begin()`/`end()` of the emoji list: iteration is reading the `list` field.
- The Qt regular-expression engine: the filter expression is an abstract predicate, and its
  setter is the inherited Qt one. Case folding covers ASCII letters only, not Qt's Unicode
  case folding.
- Sorting: only the case-insensitivity setting is modelled, not the comparison itself.
- `invalidateFilter` and the other Qt model signals, `QModelIndex` and `QVariant` plumbing.
- The keystroke matching and substitution engine, the preferences store, the translation
  catalogue and the combo table frame are not part of this model.
