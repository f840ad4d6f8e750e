/**
 * The shared record types of the dashboard and its static area
 * configuration: five areas, each with two metrics and their targets.
 */
module Config {

  datatype Area = Safety | Quality | Delivery | Production | Cost

  /** The area's name as it is written in the configuration. */
  function AreaName(a: Area): string {
    match a
    case Safety => "Safety"
    case Quality => "Quality"
    case Delivery => "Delivery"
    case Production => "Production"
    case Cost => "Cost"
  }

  /** A metric of an area's configuration, with its target value. */
  datatype MetricConfig = MetricConfig(id: string, name: string, target: real, unit: string)

  datatype AreaConfig = AreaConfig(name: Area, metrics: seq<MetricConfig>, icon: string)

  /** A metric as entered in a form: its configuration plus the current value. */
  datatype KPIMetric = KPIMetric(id: string, name: string, target: real, current: real, unit: string)

  /** One record of entered data, as kept in the store. */
  datatype KPIData = KPIData(
    id: string, area: Area, metrics: seq<KPIMetric>, date: string, line: string, shift: string)

  /** The production lines the dashboard's tables and charts show. */
  const Lines: seq<string> := ["L06", "L07", "Rapid Rhino", "ENT"]

  /** The id of the Safety metric whose values below target ask for a corrective action. */
  const NearMissId: string := "casi-cerrados"

  const KpiAreas: seq<AreaConfig> := [
    AreaConfig(Safety, [
      MetricConfig(NearMissId, "Casi Casi Cerrados", 80.0, "%"),
      MetricConfig("accidents-mtd", "Accidentes y Primeros Auxilios (MTD)", 0.0, "incidents")
    ], "shield-check"),
    AreaConfig(Quality, [
      MetricConfig("quality-ideas", "Ideas de Calidad", 90.0, "%"),
      MetricConfig("ncs", "NCS", 0.0, "issues")
    ], "badge-check"),
    AreaConfig(Delivery, [
      MetricConfig("production-vs-plan", "Producción vs Plan Semanal", 95.0, "%"),
      MetricConfig("complete-orders", "Órdenes Completas", 98.0, "%")
    ], "truck"),
    AreaConfig(Production, [
      MetricConfig("yield", "Yield", 85.0, "%"),
      MetricConfig("off-standards", "Tiempo Fuera de Estándar", 5.0, "%")
    ], "factory"),
    AreaConfig(Cost, [
      MetricConfig("total-absorption", "Absorción Total Acumulada", 100.0, "%"),
      MetricConfig("budget-compliance", "Cumplimiento Presupuestario", 95.0, "%")
    ], "dollar-sign")
  ]
}
