/** Outcomes shared by the engines: an optional value, and a result that is
    either a value or the exception the Python code would raise. */
module Results {

  datatype Option<T> = None | Some(value: T)

  /** The exceptions the modelled code can raise on inputs it does not
      guard against. */
  datatype Failure =
    | ZeroDivisionError
      /** `sorted(...)[-1-r]` on a household with too few scored zones. */
    | IndexError(agent: string)
      /** `get_node` of a name that is not a zone. */
    | UnknownZone(zone: string)
      /** `del d[k]` of an agent that is not a key of that zone's membership. */
    | KeyError(agent: string)
      /** `get_node(location)` for an agent whose location names no zone. */
    | NoZoneLocation(agent: string)
      /** A variable read before any assignment (`UnboundLocalError`). */
    | UnboundLocal
      /** `random.sample(population, k)` with `k` negative or larger than
          the population (`ValueError`). */
    | SampleLargerThanPopulation
      /** `random.choice` of an empty sequence (`IndexError`). */
    | ChoiceFromEmpty
      /** `df[df['GEOID'] == name][...].values[0]` when the housing table
          has no row for the zone (`IndexError`). */
    | MissingRow(zone: string)
      /** An attribute read on an object that lacks it (`AttributeError`). */
    | AttributeError(agent: string)
      /** A dictionary resized while a loop iterates over it
          (`RuntimeError`). */
    | DictChangedSize
      /** `datetime.strptime(str(year), '%Y')` for a year whose text is not
          four digits (`ValueError`). */
    | YearFormat(year: int)

  datatype Result<T> = Ok(value: T) | Err(failure: Failure)
}
