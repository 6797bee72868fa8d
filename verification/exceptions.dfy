/**
  The backend's error-envelope normaliser (`custom_exception_handler`).
  DRF's own `exception_handler` runs first and is not modelled: its result,
  a response with a status code and a body, or no response at all, is the
  input here. The handler rewrites that body into
  `{success: false, message, errors}`.
 */
module Exceptions {
  import opened Values

  const FallbackMessage := "We couldn't process your request right now."
  const ServerErrorMessage := "Something went wrong. Please try again later."

  /** The friendly message for each status the backend knows by name. */
  const StatusMessages: map<int, string> := map[
    400 := "Please check your input.",
    401 := "Login required.",
    403 := "You don't have permission to perform this action.",
    404 := "The requested resource was not found.",
    405 := "This action is not allowed.",
    500 := ServerErrorMessage
  ]

  /** Keys whose string value replaces the friendly message instead of becoming a field error. */
  const MessageKeys: set<string> := {"detail", "error", "message"}

  /** `status_messages.get(status, fallback)` */
  function DefaultMessage(status: int): string
  {
    if status in StatusMessages then StatusMessages[status] else FallbackMessage
  }

  /** A member that overrides the friendly message: a message key holding a string. */
  predicate Overrides(entry: (string, Value))
  {
    entry.0 in MessageKeys && entry.1.Str?
  }

  /** A field error as reported: a one-element list stands for its element. */
  function Unwrap(v: Value): Value
  {
    match v
    case Arr(items) => if |items| == 1 then items[0] else v
    case _ => v
  }

  /** The message after reading the members `es`: that of the last overriding member, or `fallback`. */
  function OverrideMessage(es: Dict, fallback: string): string
    decreases |es|
  {
    if es == [] then fallback
    else if Overrides(es[|es| - 1]) then es[|es| - 1].1.s
    else OverrideMessage(es[..|es| - 1], fallback)
  }

  /** The field errors collected from the members `es`, in the order they were assigned. */
  function FieldErrors(es: Dict): Dict
    decreases |es|
  {
    if es == [] then []
    else
      var last := es[|es| - 1];
      var before := FieldErrors(es[..|es| - 1]);
      if last.0 in MessageKeys then before else DictSet(before, last.0, Unwrap(last.1))
  }

  /** The message and field errors the handler puts in the envelope. */
  datatype Outcome = Outcome(message: string, errors: Dict)

  /** What the handler makes of a body DRF produced with the given status. */
  function Normalise(status: int, data: Value): Outcome
  {
    match data
    case Obj(es) => Outcome(OverrideMessage(es, DefaultMessage(status)), FieldErrors(es))
    case Arr(_) => Outcome(DefaultMessage(status), [("non_field_errors", data)])
    case _ => Outcome(DefaultMessage(status), [])
  }

  /** The response body for an outcome. */
  function Envelope(o: Outcome): Value
  {
    Obj([("success", Bool(false)), ("message", Str(o.message)), ("errors", Obj(o.errors))])
  }

  /** The outcome reported when DRF produced no response (an unhandled exception). */
  const Unhandled := Outcome(ServerErrorMessage, [])

  /** A DRF `Response`: the handler replaces its `data` in place. */
  class Response {
    var status: int
    var data: Value

    constructor (status: int, data: Value)
      ensures this.status == status && this.data == data
    {
      this.status := status;
      this.data := data;
    }
  }

  /**
    Lines 42-63: the friendly message from the status table, then one pass
    over a dict body that lets message keys override it and copies every
    other member into the field errors; a list body becomes
    `non_field_errors`, any other body leaves the errors empty.
   */
  method Reshape(status: int, data: Value) returns (o: Outcome)
    ensures o == Normalise(status, data)
  {
    var message := DefaultMessage(status);
    var errors: Dict := [];
    if data.Obj? {
      var es := data.members;
      var i := 0;
      while i < |es|
        invariant 0 <= i <= |es|
        invariant message == OverrideMessage(es[..i], DefaultMessage(status))
        invariant errors == FieldErrors(es[..i])
      {
        var (key, value) := es[i];
        assert es[..i + 1][..i] == es[..i];
        if key in MessageKeys {
          if value.Str? {
            message := value.s;
          }
        } else if value.Arr? {
          errors := DictSet(errors, key, if |value.items| == 1 then value.items[0] else value);
        } else {
          errors := DictSet(errors, key, value);
        }
        i := i + 1;
      }
      assert es[..i] == es;
    } else if data.Arr? {
      errors := DictSet(errors, "non_field_errors", data);
    }
    o := Outcome(message, errors);
  }

  /**
    The handler. With a DRF response it keeps the object and its status and
    replaces only the body; without one it builds a fresh 500 response.
   */
  method CustomExceptionHandler(response: Response?) returns (r: Response)
    modifies response
    ensures response != null ==> r == response && r.status == old(response.status)
    ensures response != null ==> r.data == Envelope(Normalise(old(response.status), old(response.data)))
    ensures response == null ==> fresh(r) && r.status == 500 && r.data == Envelope(Unhandled)
  {
    if response != null {
      var o := Reshape(response.status, response.data);
      response.data := Envelope(o);
      r := response;
    } else {
      r := new Response(500, Envelope(Unhandled));
    }
  }

  /** Every envelope is an object with exactly the keys success, message and errors, and success is false. */
  lemma EnvelopeShape(o: Outcome)
    ensures Envelope(o).Obj?
    ensures Keys(Envelope(o).members) == {"success", "message", "errors"}
    ensures UniqueKeys(Envelope(o).members)
    ensures Get(Envelope(o).members, "success") == Some(Bool(false))
    ensures Get(Envelope(o).members, "message") == Some(Str(o.message))
    ensures Get(Envelope(o).members, "errors") == Some(Obj(o.errors))
  {
    var ms := Envelope(o).members;
    assert ms[0].0 == "success" && ms[1].0 == "message" && ms[2].0 == "errors";
    assert ms[..2] == [ms[0], ms[1]] && ms[..2][..1] == [ms[0]];
    assert Get(ms, "success") == Get(ms[..2], "success") == Get(ms[..2][..1], "success");
  }

  /** The status table: the six named statuses and the fallback for every other one. */
  lemma DefaultMessageTable(status: int)
    ensures status == 400 ==> DefaultMessage(status) == "Please check your input."
    ensures status == 401 ==> DefaultMessage(status) == "Login required."
    ensures status == 403 ==> DefaultMessage(status) == "You don't have permission to perform this action."
    ensures status == 404 ==> DefaultMessage(status) == "The requested resource was not found."
    ensures status == 405 ==> DefaultMessage(status) == "This action is not allowed."
    ensures status == 500 ==> DefaultMessage(status) == "Something went wrong. Please try again later."
    ensures status !in {400, 401, 403, 404, 405, 500} ==> DefaultMessage(status) == FallbackMessage
  {
  }

  /** Without an overriding member the message is the status table's. */
  lemma {:induction false} MessageNotOverridden(es: Dict, fallback: string)
    requires forall i :: 0 <= i < |es| ==> !Overrides(es[i])
    ensures OverrideMessage(es, fallback) == fallback
    decreases |es|
  {
    if es != [] {
      MessageNotOverridden(es[..|es| - 1], fallback);
    }
  }

  /** The last overriding member wins, whatever comes after it that does not override. */
  lemma {:induction false} MessageLastWins(es: Dict, fallback: string, j: nat)
    requires j < |es| && Overrides(es[j])
    requires forall i :: j < i < |es| ==> !Overrides(es[i])
    ensures OverrideMessage(es, fallback) == es[j].1.s
    decreases |es|
  {
    if j < |es| - 1 {
      MessageLastWins(es[..|es| - 1], fallback, j);
    }
  }

  /** The field errors hold every key of the body except the message keys, each once. */
  lemma {:induction false} FieldErrorsKeys(es: Dict)
    ensures Keys(FieldErrors(es)) == Keys(es) - MessageKeys
    ensures UniqueKeys(FieldErrors(es))
    decreases |es|
  {
    if es != [] {
      var init, last := es[..|es| - 1], es[|es| - 1];
      FieldErrorsKeys(init);
      assert es == init + [last];
      KeysOfSnoc(init, last);
      if last.0 !in MessageKeys {
        DictSetSpec(FieldErrors(init), last.0, Unwrap(last.1));
      }
    }
  }

  /** Every non-message member of a dict body reappears under its own key, a one-element list unwrapped. */
  lemma {:induction false} FieldErrorsValues(es: Dict, j: nat)
    requires UniqueKeys(es)
    requires j < |es| && es[j].0 !in MessageKeys
    ensures Get(FieldErrors(es), es[j].0) == Some(Unwrap(es[j].1))
    decreases |es|
  {
    var init, last := es[..|es| - 1], es[|es| - 1];
    if last.0 !in MessageKeys {
      DictSetSpec(FieldErrors(init), last.0, Unwrap(last.1));
    }
    if j < |es| - 1 {
      FieldErrorsValues(init, j);
      assert es[j].0 != last.0;
    }
  }

  /** With unique keys the field errors follow the body's order: each is appended, none overwritten. */
  lemma {:induction false} FieldErrorsInOrder(es: Dict)
    requires UniqueKeys(es)
    ensures FieldErrors(es) == Kept(es)
    decreases |es|
  {
    if es != [] {
      var init, last := es[..|es| - 1], es[|es| - 1];
      FieldErrorsInOrder(init);
      if last.0 !in MessageKeys {
        FieldErrorsKeys(init);
        assert last.0 !in Keys(init);
        DictSetSpec(FieldErrors(init), last.0, Unwrap(last.1));
      }
      KeptSnoc(init, last);
      assert es == init + [last];
    }
  }

  /** The non-message members of `es` with their values unwrapped, in order (read front to back). */
  function Kept(es: Dict): Dict
  {
    if es == [] then []
    else (if es[0].0 in MessageKeys then [] else [(es[0].0, Unwrap(es[0].1))]) + Kept(es[1..])
  }

  lemma {:induction false} KeptSnoc(es: Dict, last: (string, Value))
    ensures Kept(es + [last]) == Kept(es) + (if last.0 in MessageKeys then [] else [(last.0, Unwrap(last.1))])
    decreases |es|
  {
    if es == [] {
      assert (es + [last])[1..] == [];
    } else {
      assert (es + [last])[1..] == es[1..] + [last];
      KeptSnoc(es[1..], last);
    }
  }

  /** A list body is reported whole under non_field_errors; any other non-dict body reports no field errors. */
  lemma NonDictBodies(status: int, data: Value)
    requires !data.Obj?
    ensures Normalise(status, data).message == DefaultMessage(status)
    ensures data.Arr? ==> Keys(Normalise(status, data).errors) == {"non_field_errors"}
    ensures data.Arr? ==> Get(Normalise(status, data).errors, "non_field_errors") == Some(data)
    ensures !data.Arr? ==> Normalise(status, data).errors == []
  {
    if data.Arr? {
      DictSetSpec([], "non_field_errors", data);
    }
  }
}
