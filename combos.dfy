/** The combo record shared by the combo editor and the combo table filter. */
module Combos {

  import opened Wrappers

  /** Identity of a combo: two combos are the same combo exactly when their ids are equal. */
  type ComboId = nat

  /** Identity of a group. */
  type GroupId = nat

  /**
   * A combo: a keyword that expands to a snippet, in a group (possibly null), with its
   * matching mode (loose or strict) and whether the snippet is HTML.
   */
  datatype Combo = Combo(
    id: ComboId,
    name: string,
    keyword: string,
    snippet: string,
    group: Option<GroupId>,
    useLooseMatching: bool,
    useHtml: bool)
}
