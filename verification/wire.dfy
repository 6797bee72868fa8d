/**
  The two ends together: the client's error helpers applied to an
  envelope the backend's handler produced.
 */
module Wire {
  import opened Values
  import Exceptions
  import Client

  /** The axios error the client sees for an envelope sent with `status`. */
  function Received(status: int, o: Exceptions.Outcome): Client.AxiosError
  {
    Client.AxiosError(Some(Client.HttpResponse(status, Some(Exceptions.Envelope(o)))))
  }

  /**
    The client shows the backend's message when it is non-empty and falls
    back to its own status table only for an empty one; the field errors
    arrive unchanged, an empty set of them as an empty object.
   */
  lemma ClientReadsEnvelope(status: int, o: Exceptions.Outcome)
    ensures o.message != "" ==> Client.GetErrorMessage(Received(status, o)) == Str(o.message)
    ensures o.message == "" ==>
      Client.GetErrorMessage(Received(status, o)) == Client.Or(Client.StatusEntry(status), Str(Client.GenericMessage))
    ensures Client.GetFieldErrors(Received(status, o)) == Obj(o.errors)
  {
    Exceptions.EnvelopeShape(o);
  }

  /** For the handler's own 500 the client shows the backend's generic message and no field errors. */
  lemma ClientReadsUnhandled()
    ensures Client.GetErrorMessage(Received(500, Exceptions.Unhandled)) == Str(Exceptions.ServerErrorMessage)
    ensures Client.GetFieldErrors(Received(500, Exceptions.Unhandled)) == Obj([])
  {
    ClientReadsEnvelope(500, Exceptions.Unhandled);
  }
}
