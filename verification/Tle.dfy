/** Element sets and datasets, as the rest of the system sees them. */
module Tle {
  /** `epoch` is an instant in nanoseconds. */
  datatype Entry = Entry(noradId: int, name: string, epoch: int, line1: string, line2: string)

  /** `fetchedAt` is an instant in nanoseconds. */
  datatype Dataset = Dataset(source: string, fetchedAt: int, satellites: seq<Entry>)
}
