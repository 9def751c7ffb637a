/**
 * Rows of a table. A record is a field-name-to-value mapping (a Python dict of one
 * worksheet row); an update is the list of (field, value) pairs of a Python dict, in
 * the dict's iteration order.
 */
module Records {
  import opened Wrappers

  /** A cell value as the worksheet returns it. */
  datatype Value = Text(s: string) | Number(n: int) | Flag(b: bool)

  type Record = map<string, Value>

  type Updates = seq<(string, Value)>

  /** `record.get(field, '')`: the field's value, or the empty string when it is absent. */
  function Get(r: Record, field: string): Value
  {
    if field in r then r[field] else Text("")
  }

  /** The fields an update names. */
  function Fields(u: Updates): set<string>
  {
    set p | p in u :: p.0
  }

  /** `dict.update`: the pairs are written one after the other, so a later pair wins. */
  function Apply(r: Record, u: Updates): Record
    decreases |u|
  {
    if u == [] then r
    else Apply(r, u[..|u| - 1])[u[|u| - 1].0 := u[|u| - 1].1]
  }

  /** The dict that an update list stands for. */
  function AsMap(u: Updates): map<string, Value>
  {
    Apply(map[], u)
  }

  /**
   * Updating a record is merging the update dict into it: every updated field takes
   * the update's value (the last one, when a field is named twice), every other field
   * keeps its own, and no field is dropped.
   */
  lemma {:induction false} ApplyIsMerge(r: Record, u: Updates)
    ensures Apply(r, u) == r + AsMap(u)
    ensures AsMap(u).Keys == Fields(u)
    decreases |u|
  {
    if u != [] {
      var p := u[..|u| - 1];
      var last := u[|u| - 1];
      ApplyIsMerge(r, p);
      ApplyIsMerge(map[], p);
      assert u == p + [last];
      assert Fields(u) == Fields(p) + {last.0};
    }
  }

  /** The first row (lowest index) that satisfies `p`, as Python's `for row in rows: if p(row)`. */
  function FirstMatch(rows: seq<Record>, p: Record -> bool): (r: Option<nat>)
    ensures r.Some? ==> r.value < |rows| && p(rows[r.value])
    ensures r.Some? ==> forall j :: 0 <= j < r.value ==> !p(rows[j])
    ensures r.None? <==> forall j :: 0 <= j < |rows| ==> !p(rows[j])
    decreases |rows|
  {
    if rows == [] then None
    else if p(rows[0]) then Some(0)
    else
      match FirstMatch(rows[1..], p)
      case None => None
      case Some(k) => Some(k + 1)
  }
}
