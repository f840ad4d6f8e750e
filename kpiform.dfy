/**
 * The generic data-entry form of an area: a line, a shift, a date and one
 * number per metric of the area, submitted to the store as one record.
 */
module KPIForm {
  import opened Config
  import opened Store

  /** A metric of the form carries exactly the configuration of its metric. */
  predicate Matches(m: KPIMetric, c: MetricConfig) {
    m.id == c.id && m.name == c.name && m.target == c.target && m.unit == c.unit
  }

  /** The form's metrics follow the area's configuration one for one, in order. */
  predicate Conforms(metrics: seq<KPIMetric>, config: AreaConfig) {
    |metrics| == |config.metrics| && forall i :: 0 <= i < |metrics| ==> Matches(metrics[i], config.metrics[i])
  }

  /** `config.metrics.map(m => ({ ...m, current: 0 }))`. */
  function InitialMetrics(config: AreaConfig): (metrics: seq<KPIMetric>)
    ensures Conforms(metrics, config)
    ensures forall i :: 0 <= i < |metrics| ==> metrics[i].current == 0.0
  {
    seq(|config.metrics|, i requires 0 <= i < |config.metrics| =>
      var c := config.metrics[i];
      KPIMetric(c.id, c.name, c.target, 0.0, c.unit))
  }

  /** The number input of metric `index`: only that metric's current value changes. */
  function SetCurrent(metrics: seq<KPIMetric>, index: nat, value: real): (r: seq<KPIMetric>)
    requires index < |metrics|
    ensures |r| == |metrics| && r[index].current == value
    ensures forall i :: 0 <= i < |r| ==> r[i].(current := metrics[i].current) == metrics[i]
    ensures forall i :: 0 <= i < |r| && i != index ==> r[i] == metrics[i]
  {
    metrics[index := metrics[index].(current := value)]
  }

  /** Editing numbers never breaks the correspondence with the configuration. */
  lemma SetCurrentConforms(metrics: seq<KPIMetric>, config: AreaConfig, index: nat, value: real)
    requires index < |metrics| && Conforms(metrics, config)
    ensures Conforms(SetCurrent(metrics, index, value), config)
  {
    var r := SetCurrent(metrics, index, value);
    forall i | 0 <= i < |r|
      ensures Matches(r[i], config.metrics[i])
    {
      assert r[i].(current := metrics[i].current) == metrics[i];
    }
  }

  /** The fields of the form. */
  datatype FormData = FormData(line: string, shift: string, date: string, metrics: seq<KPIMetric>)

  /** The record `handleSubmit` builds from the form. */
  function Record(config: AreaConfig, form: FormData, id: string): (data: KPIData)
    ensures data.area == config.name && data.id == id
    ensures data.metrics == form.metrics && data.date == form.date && data.line == form.line && data.shift == form.shift
  {
    KPIData(id, config.name, form.metrics, form.date, form.line, form.shift)
  }

  class KPIFormView {
    const config: AreaConfig
    var formData: FormData

    /** The form opens with empty line and shift, today's date and every metric at 0. */
    constructor (config: AreaConfig, today: string)
      ensures this.config == config
      ensures formData == FormData("", "", today, InitialMetrics(config))
    {
      this.config := config;
      formData := FormData("", "", today, InitialMetrics(config));
    }

    /** The invariant every event keeps: the metrics follow the configuration. */
    predicate Valid()
      reads this
    {
      Conforms(formData.metrics, config)
    }

    method SetLine(line: string)
      modifies this
      ensures formData == old(formData).(line := line)
    {
      formData := formData.(line := line);
    }

    method SetShift(shift: string)
      modifies this
      ensures formData == old(formData).(shift := shift)
    {
      formData := formData.(shift := shift);
    }

    method SetDate(date: string)
      modifies this
      ensures formData == old(formData).(date := date)
    {
      formData := formData.(date := date);
    }

    /** The number input of metric `index`, given the number it reads. */
    method EditMetric(index: nat, value: real)
      requires Valid() && index < |formData.metrics|
      modifies this
      ensures Valid()
      ensures formData == old(formData).(metrics := SetCurrent(old(formData).metrics, index, value))
    {
      SetCurrentConforms(formData.metrics, config, index, value);
      formData := formData.(metrics := SetCurrent(formData.metrics, index, value));
    }

    /** `handleSubmit`: appends the record to the store under a fresh id; the form stays as it is. */
    method Submit(store: KPIStore, freshId: string)
      modifies store
      ensures store.kpiData == old(store.kpiData) + [Record(config, formData, freshId)]
      ensures store.selectedArea == old(store.selectedArea) && store.isAuthenticated == old(store.isAuthenticated)
    {
      store.AddKPIData(Record(config, formData, freshId));
    }
  }
}
