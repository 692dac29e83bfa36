/** Record shapes of the dashboard dataset (models.py): a transaction with
    its nested customer, a daily metric, and the summary of KPIs.
    Dates are ordinal day numbers; amounts are exact reals. */
module Records {

  datatype Option<T> = None | Some(value: T)

  /** The customer nested in each transaction (models.py Customer). */
  datatype Customer = Customer(id: string, segment: string)

  /** One transaction row (the second, effective models.py Transaction). */
  datatype Txn = Txn(
    id: string,
    date: int,
    amount: real,
    category: string,
    region: string,
    customer: Customer,
    status: string)

  /** One precomputed per-day record of the dataset (models.py DailyMetric). */
  datatype DailyMetric = DailyMetric(date: int, conversionRate: real)

  /** The KPI summary (models.py Summary). */
  datatype Summary = Summary(
    totalRevenue: real,
    averageOrderValue: real,
    conversionRate: real,
    totalCustomers: nat,
    refundRate: real,
    topRegion: string,
    topCategory: string)
}
