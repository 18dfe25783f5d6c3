/** Daily price bars as the strategy reads them. */
module Market {

  datatype Option<T> = None | Some(value: T)

  /**
   * One daily bar. Prices are exact reals; volume is not part of this model,
   * since the strategy reads it only for a confirmation that gates nothing.
   */
  datatype Bar = Bar(open: real, high: real, low: real, close: real)
}
