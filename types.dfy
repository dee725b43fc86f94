/**
 * The records of the demand-planning pipeline.
 *
 * The interfaces declare every field as present, but the code that fills them
 * (an uploaded file with a missing column, a warehouse row without a `date`
 * column) can leave a field `undefined`, so fields that can be missing are
 * `Option`s here. Numbers are integers.
 */
module Types {
  import opened Wrappers

  /** A JavaScript number as the pipeline sees it: a finite value, or NaN from a failed parse. */
  datatype Num = Finite(n: int) | NaN

  /** `parseFloat` on a string: None stands for NaN. It is a parameter of the model, not defined here. */
  type NumberParser = string -> Option<int>

  datatype SalesData = SalesData(date: Option<string>, sku: Option<string>, quantity: Option<int>, price: Option<int>)

  datatype ItemMaster = ItemMaster(sku: Option<string>, category: Option<string>, brand: Option<string>, unitCost: Option<int>)

  datatype Promotion = Promotion(sku: Option<string>, startDate: Option<string>, endDate: Option<string>, discountPercent: Option<int>)

  /** One dated point of a series; None is an absent (undefined or null) field. */
  datatype ForecastPoint = ForecastPoint(
    date: Option<string>,
    actual: Option<Num>,
    xgboost: Option<Num>,
    randomForest: Option<Num>,
    lightGbm: Option<Num>,
    dnn: Option<Num>,
    consensus: Option<Num>)

  /** A point with no field set, as the object literal `{}` the normaliser starts from. */
  const EmptyPoint := ForecastPoint(None, None, None, None, None, None, None)

  datatype DriverSetting = DriverSetting(id: string, name: string, value: int, min: int, max: int, step: int, description: string)

  datatype BigQueryConfig = BigQueryConfig(projectId: string, datasetId: string, tableId: string, accessToken: string, enabled: bool)
}
