/** A driver cursor over the result sets of one executed statement batch.
    The cursor starts on the first set; `nextset()` moves to the following
    one and reports false when there is none. */
module Cursor {
  import opened Wrappers
  import opened Values

  /** One result set: the column names of `cursor.description` (`None` when
      the statement produced no result set) and the fetched rows. */
  datatype ResultSet = ResultSet(columns: Option<seq<string>>, rows: seq<seq<Value>>)

  /** `cursor.description` while positioned on set `pos`. */
  function Description(sets: seq<ResultSet>, pos: nat): Option<seq<string>> {
    if pos < |sets| then sets[pos].columns else None
  }

  /** `cursor.description` is truthy: present and naming at least one column. */
  predicate Described(sets: seq<ResultSet>, pos: nat) {
    Description(sets, pos).Some? && Description(sets, pos).value != []
  }

  /** `while cursor.description is None: if not cursor.nextset(): break`:
      the first set from `pos` on that has a description, or the last set
      when none has one. */
  function SkipUndescribed(sets: seq<ResultSet>, pos: nat): (p: nat)
    requires pos < |sets| || pos == 0
    ensures pos <= p && (p < |sets| || p == pos)
    ensures forall j :: pos <= j < p ==> sets[j].columns.None?
    ensures Description(sets, p).None? ==> forall j :: pos <= j < |sets| ==> sets[j].columns.None?
    decreases |sets| - pos
  {
    if Description(sets, pos).Some? then pos
    else if pos + 1 < |sets| then SkipUndescribed(sets, pos + 1)
    else pos
  }
}
