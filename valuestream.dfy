/**
 * The value-stream form: a name, a description and the areas the stream
 * covers, chosen with one checkbox per area.
 */
module ValueStreamForm {
  import opened Common

  datatype ValueStreamData = ValueStreamData(name: string, description: string, areas: seq<string>)

  const BlankValueStream: ValueStreamData := ValueStreamData("", "", [])

  /** The five areas offered as checkboxes. */
  const AreaOptions: seq<string> := ["Safety", "Quality", "Delivery", "Production", "Cost"]

  /** A checkbox shows as checked exactly when its area is listed. */
  predicate Checked(data: ValueStreamData, area: string) {
    area in data.areas
  }

  /**
   * The checkbox `onChange`: checking appends the area at the end, unchecking
   * removes every occurrence of it; the other areas keep their order.
   */
  function SetArea(areas: seq<string>, area: string, checked: bool): (r: seq<string>)
    ensures checked ==> r == areas + [area]
    ensures !checked ==> area !in r && Subsequence(r, areas) && multiset(r) == multiset(areas)[area := 0]
    ensures forall other :: other != area ==> (other in r <==> other in areas)
    ensures area in r <==> checked
  {
    if checked then areas + [area]
    else
      SubsequenceMembers(Without(areas, area), areas);
      Without(areas, area)
  }

  /** The form's state. */
  class ValueStreamFormView {
    var formData: ValueStreamData

    constructor (initialData: Option<ValueStreamData>)
      ensures formData == if initialData.Some? then initialData.value else BlankValueStream
    {
      formData := if initialData.Some? then initialData.value else BlankValueStream;
    }

    /** A click on the checkbox of `area`, whose new checked state is `checked`. */
    method ToggleArea(area: string, checked: bool)
      modifies this
      ensures formData == old(formData).(areas := SetArea(old(formData).areas, area, checked))
      ensures Checked(formData, area) == checked
    {
      formData := formData.(areas := SetArea(formData.areas, area, checked));
    }
  }
}
