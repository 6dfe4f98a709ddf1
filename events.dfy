/**
 * Bus events as seen by the plugins: a name and a payload. The Bus itself is
 * an external collaborator; this model keeps only the log of notifications a
 * plugin publishes, in publish order.
 */
module Events {

  datatype Event<D> = Event(name: string, data: D)

  /** The part of the bus a publisher sees: every `notify` appends one event. */
  class Bus<D> {
    var log: seq<Event<D>>

    constructor ()
      ensures log == []
    {
      log := [];
    }

    method Notify(name: string, data: D)
      modifies this
      ensures log == old(log) + [Event(name, data)]
    {
      log := log + [Event(name, data)];
    }
  }
}
