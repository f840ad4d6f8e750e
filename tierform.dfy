/**
 * The tier form: a tier's level, name, frequency, responsible people and the
 * KPIs it reviews, with a checkbox per KPI that toggles its id in the list.
 */
module TierForm {
  import opened Common

  datatype TierData = TierData(
    level: string, name: string, frequency: string, responsibleIds: seq<string>, kpiIds: seq<string>)

  /** The blank form used when no tier is being edited. */
  const BlankTier: TierData := TierData("", "", "daily", [], [])

  /**
   * `handleKPIChange`: a listed id is removed (every occurrence), an unlisted
   * one is appended at the end.
   */
  function ToggleKpi(ids: seq<string>, id: string): (r: seq<string>)
    ensures id in ids ==> id !in r && Subsequence(r, ids) && multiset(r) == multiset(ids)[id := 0]
    ensures id !in ids ==> r == ids + [id]
    ensures forall other :: other != id ==> (other in r <==> other in ids)
  {
    if id in ids then
      SubsequenceMembers(Without(ids, id), ids);
      Without(ids, id)
    else ids + [id]
  }

  /**
   * Toggling the same id twice restores which ids are listed; an id that was
   * not listed leaves the list exactly as it was, while a listed one may come
   * back at the end.
   */
  lemma ToggleTwice(ids: seq<string>, id: string)
    ensures forall x :: x in ToggleKpi(ToggleKpi(ids, id), id) <==> x in ids
    ensures id !in ids ==> ToggleKpi(ToggleKpi(ids, id), id) == ids
  {
    var once := ToggleKpi(ids, id);
    if id !in ids {
      assert id in once;
      assert Without(ids + [id], id) == Without(ids, id) by {
        WithoutAppend(ids, id);
      }
    }
  }

  /** Dropping `x` from a list that ends in the only `x` drops just that last element. */
  lemma WithoutAppend(s: seq<string>, x: string)
    requires x !in s
    ensures Without(s + [x], x) == s
  {
    FilterAppend(s, [x], Differs(x));
    assert [x][1..] == [];
  }

  /** The form's state. */
  class TierFormView {
    var formData: TierData

    /** `initialData || { ... }`: the tier being edited, or the blank form. */
    constructor (initialData: Option<TierData>)
      ensures formData == if initialData.Some? then initialData.value else BlankTier
    {
      formData := if initialData.Some? then initialData.value else BlankTier;
    }

    method HandleKPIChange(kpiId: string)
      modifies this
      ensures formData == old(formData).(kpiIds := ToggleKpi(old(formData).kpiIds, kpiId))
    {
      formData := formData.(kpiIds := ToggleKpi(formData.kpiIds, kpiId));
    }
  }
}
