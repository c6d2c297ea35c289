/** The chart's input record (PieChart.types.ts) and the optional-value wrapper it needs. */
module PieChartTypes {

  /** An optional value: `color?: string` is either absent or a string. */
  datatype Option<+T> = None | Some(value: T)

  /** One labelled entry of the dataset (`label` is a Dafny keyword, hence `labelText`). Numbers are exact reals. */
  datatype PieChartSlice = PieChartSlice(value: real, labelText: string, color: Option<string>)
}
