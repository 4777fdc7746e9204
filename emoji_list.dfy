/**
 * The emoji shortcode list: an ordered list of possibly-null emoji entries that answers
 * shortcode lookups (first non-null entry with that shortcode, in list order) and serves as
 * a read-only table model.
 */
module Emojis {

  import opened Wrappers

  /** An emoji: the shortcode typed to trigger it and the text it expands to. */
  datatype Emoji = Emoji(shortcode: string, value: string)

  /** The item-data roles the table model is asked about. */
  datatype Role =
    | DisplayRole
    | SnippetRole
    | KeywordRole
    | GroupNameRole
    | EnabledRole
    | CreationDateTimeRole
    | ModificationDateTimeRole
    | LastUseDateTimeRole
    | OtherRole(code: int)
  {
    /** The roles an entry has no data for: its timestamps and every role the model does not know. */
    predicate IsTimestampOrUnknown() {
      CreationDateTimeRole? || ModificationDateTimeRole? || LastUseDateTimeRole? || OtherRole?
    }
  }

  /** What the table model hands back: an invalid (empty) variant, a text or a boolean. */
  datatype Variant = Invalid | Text(text: string) | Boolean(flag: bool)

  /** The group name every emoji reports (untranslated). */
  const EmojiGroupName: string := "Emojis"

  /** The search predicate shared by `contains` and `find`: a non-null entry with this shortcode. */
  predicate HasShortcode(entry: Option<Emoji>, shortcode: string): (b: bool)
    ensures b ==> entry.Some?
  {
    entry.Some? && entry.value.shortcode == shortcode
  }

  /** Index of the first entry that has the shortcode, or None when no entry has it. */
  function FirstMatch(entries: seq<Option<Emoji>>, shortcode: string): (r: Option<nat>)
    ensures r.Some? ==> r.value < |entries| && HasShortcode(entries[r.value], shortcode)
    ensures r.Some? ==> forall j :: 0 <= j < r.value ==> !HasShortcode(entries[j], shortcode)
    ensures r.None? ==> forall j :: 0 <= j < |entries| ==> !HasShortcode(entries[j], shortcode)
  {
    if entries == [] then None
    else if HasShortcode(entries[0], shortcode) then Some(0)
    else match FirstMatch(entries[1..], shortcode)
      case None =>
        assert forall j :: 0 < j < |entries| ==> entries[j] == entries[1..][j - 1];
        None
      case Some(i) =>
        assert forall j :: 0 < j <= i + 1 ==> entries[j] == entries[1..][j - 1];
        Some(i + 1)
  }

  /**
   * The entry a shortcode lookup yields: the first non-null entry with that shortcode, or
   * null. Null entries are skipped; the result is non-null exactly when some entry matches.
   */
  function Lookup(entries: seq<Option<Emoji>>, shortcode: string): (r: Option<Emoji>)
    ensures r.Some? ==> r.value.shortcode == shortcode
    ensures r.Some? <==> exists j :: 0 <= j < |entries| && HasShortcode(entries[j], shortcode)
  {
    match FirstMatch(entries, shortcode)
    case None => None
    case Some(i) => entries[i]
  }

  /** The lookup yields the entry at `i` when that entry is the first one with the shortcode. */
  lemma LookupIsFirstInOrder(entries: seq<Option<Emoji>>, shortcode: string, i: nat)
    requires i < |entries| && HasShortcode(entries[i], shortcode)
    requires forall j :: 0 <= j < i ==> !HasShortcode(entries[j], shortcode)
    ensures Lookup(entries, shortcode) == entries[i]
    ensures FirstMatch(entries, shortcode) == Some(i)
  {
  }

  /** Appending never shadows an earlier match; the new entry is found only when nothing before it is. */
  lemma LookupAfterAppend(entries: seq<Option<Emoji>>, e: Option<Emoji>, shortcode: string)
    ensures Lookup(entries + [e], shortcode)
         == if Lookup(entries, shortcode).Some? then Lookup(entries, shortcode)
            else if HasShortcode(e, shortcode) then e
            else None
  {
    var s := entries + [e];
    assert forall j :: 0 <= j < |entries| ==> s[j] == entries[j];
    match FirstMatch(entries, shortcode)
    case Some(i) =>
      LookupIsFirstInOrder(s, shortcode, i);
    case None =>
      if HasShortcode(e, shortcode) {
        LookupIsFirstInOrder(s, shortcode, |entries|);
      } else {
        assert forall j :: 0 <= j < |s| ==> !HasShortcode(s[j], shortcode);
      }
  }

  /** A null entry, wherever it is inserted, never changes what a lookup yields. */
  lemma NullEntriesNeverMatch(entries: seq<Option<Emoji>>, k: nat, shortcode: string)
    requires k <= |entries|
    ensures Lookup(entries[..k] + [None] + entries[k..], shortcode) == Lookup(entries, shortcode)
  {
    var s := entries[..k] + [None] + entries[k..];
    assert forall j :: 0 <= j < k ==> s[j] == entries[j];
    assert forall j :: k < j < |s| ==> s[j] == entries[j - 1];
    match FirstMatch(entries, shortcode)
    case Some(i) =>
      if i < k {
        LookupIsFirstInOrder(s, shortcode, i);
      } else {
        LookupIsFirstInOrder(s, shortcode, i + 1);
      }
    case None =>
      assert forall j :: 0 <= j < |s| ==> !HasShortcode(s[j], shortcode);
  }

  /** Looking up the shortcode a non-null entry shows finds that entry or an earlier namesake. */
  lemma ListedShortcodeIsFound(entries: seq<Option<Emoji>>, row: nat)
    requires row < |entries| && entries[row].Some?
    ensures var r := FirstMatch(entries, entries[row].value.shortcode);
            r.Some? && r.value <= row && Lookup(entries, entries[row].value.shortcode).Some?
  {
    assert HasShortcode(entries[row], entries[row].value.shortcode);
  }

  /** The emoji list: a table model over an ordered list of possibly-null emoji entries. */
  class EmojiList {

    var list: seq<Option<Emoji>>

    /** A new list is empty. */
    constructor ()
      ensures list == []
    {
      list := [];
    }

    /** Unchecked indexing: the caller keeps `index` in range. */
    function At(index: int): (e: Option<Emoji>)
      reads this
      requires 0 <= index < |list|
      ensures e == list[index]
    {
      list[index]
    }

    /** Assignment through the mutable reference `operator[]` hands out. */
    method SetAt(index: int, e: Option<Emoji>)
      requires 0 <= index < |list|
      modifies this
      ensures list == old(list)[index := e]
      ensures Size() == old(Size())
    {
      list := list[index := e];
    }

    /** Removes every entry. */
    method Clear()
      modifies this
      ensures list == []
      ensures Size() == 0
      ensures forall shortcode :: Lookup(list, shortcode) == None
    {
      list := [];
    }

    /**
     * The linear scan `contains` and `find` share: the position of the first non-null entry
     * with the shortcode, or `|list|` (the end position) when there is none.
     */
    method FindIf(shortcode: string) returns (it: nat)
      ensures it <= |list|
      ensures it < |list| ==> HasShortcode(list[it], shortcode)
      ensures forall j :: 0 <= j < it ==> !HasShortcode(list[j], shortcode)
    {
      it := 0;
      while it < |list| && !HasShortcode(list[it], shortcode)
        invariant it <= |list|
        invariant forall j :: 0 <= j < it ==> !HasShortcode(list[j], shortcode)
      {
        it := it + 1;
      }
    }

    /** True exactly when some non-null entry has the shortcode, i.e. when `find` is non-null. */
    method Contains(shortcode: string) returns (b: bool)
      ensures b <==> exists j :: 0 <= j < |list| && HasShortcode(list[j], shortcode)
      ensures b <==> Lookup(list, shortcode).Some?
    {
      var it := FindIf(shortcode);
      b := it != |list|;
    }

    /** The first non-null entry with the shortcode, in list order, or null. */
    method Find(shortcode: string) returns (r: Option<Emoji>)
      ensures r == Lookup(list, shortcode)
      ensures r.Some? ==> r.value.shortcode == shortcode
    {
      var it := FindIf(shortcode);
      if it == |list| {
        r := None;
      } else {
        LookupIsFirstInOrder(list, shortcode, it);
        r := list[it];
      }
    }

    /** Adds an entry (possibly null) at the end. */
    method Append(e: Option<Emoji>)
      modifies this
      ensures list == old(list) + [e]
      ensures Size() == old(Size()) + 1 && list[Size() - 1] == e
      ensures list[..old(Size())] == old(list)
    {
      list := list + [e];
    }

    /** Number of entries, null ones included. */
    function Size(): (n: int)
      reads this
      ensures n == |list|
    {
      |list|
    }

    /** The table model reports no rows, whatever the list holds. */
    function RowCount(): (n: int)
      reads this
      ensures n == 0
    {
      0
    }

    /** The table model reports one column, whatever the list holds. */
    function ColumnCount(): (n: int)
      reads this
      ensures n == 1
    {
      1
    }

    /**
     * Bounds-checked item data. Rows outside the list and null entries give an invalid
     * variant; otherwise the role decides what the entry reports.
     */
    function Data(row: int, role: Role): (v: Variant)
      reads this
      ensures v != Invalid ==> 0 <= row < |list| && list[row].Some?
      ensures 0 <= row < |list| && list[row].Some? ==>
        var e := list[row].value;
        && (role.DisplayRole? || role.SnippetRole? ==> v == Text(e.value))
        && (role.KeywordRole? ==> v == Text(e.shortcode))
        && (role.GroupNameRole? ==> v == Text(EmojiGroupName))
        && (role.EnabledRole? ==> v == Boolean(true))
        && (role.IsTimestampOrUnknown() ==> v == Invalid)
    {
      if row < 0 || row >= |list| then Invalid
      else match list[row]
        case None => Invalid
        case Some(e) =>
          match role
          case DisplayRole => Text(e.value)
          case SnippetRole => Text(e.value)
          case KeywordRole => Text(e.shortcode)
          case GroupNameRole => Text(EmojiGroupName)
          case EnabledRole => Boolean(true)
          case _ => Invalid
    }
  }
}
