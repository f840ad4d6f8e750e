/**
 * The global application store: the entered KPI records, the selected area
 * and the authentication flag. Records are only ever appended.
 */
module Store {
  import opened Common
  import opened Config

  class KPIStore {
    var kpiData: seq<KPIData>
    var selectedArea: Option<Area>
    var isAuthenticated: bool

    constructor ()
      ensures kpiData == [] && selectedArea == None && !isAuthenticated
    {
      kpiData := [];
      selectedArea := None;
      isAuthenticated := false;
    }

    method SetSelectedArea(area: Option<Area>)
      modifies this
      ensures selectedArea == area
      ensures kpiData == old(kpiData) && isAuthenticated == old(isAuthenticated)
    {
      selectedArea := area;
    }

    /** Appends one record; earlier records stay as they were. */
    method AddKPIData(data: KPIData)
      modifies this
      ensures kpiData == old(kpiData) + [data]
      ensures |kpiData| == |old(kpiData)| + 1 && kpiData[..|old(kpiData)|] == old(kpiData)
      ensures selectedArea == old(selectedArea) && isAuthenticated == old(isAuthenticated)
    {
      kpiData := kpiData + [data];
    }

    /** Sets the flag whatever it was, so a second call changes nothing. */
    method Login()
      modifies this
      ensures isAuthenticated
      ensures kpiData == old(kpiData) && selectedArea == old(selectedArea)
    {
      isAuthenticated := true;
    }

    /** Clears the flag whatever it was, so a second call changes nothing. */
    method Logout()
      modifies this
      ensures !isAuthenticated
      ensures kpiData == old(kpiData) && selectedArea == old(selectedArea)
    {
      isAuthenticated := false;
    }
  }
}
