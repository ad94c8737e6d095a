/** What a `net/http` handler writes to its `http.ResponseWriter`. The
    status is fixed by the first header write: later `WriteHeader` calls are
    ignored (Go logs them as superfluous) while their bodies are still
    appended. A handler that writes nothing, or writes a body first, answers
    200. */
module Http {
  import opened Wrappers

  const StatusOK: int := 200
  const StatusBadRequest: int := 400
  const StatusNotFound: int := 404
  const StatusInternalServerError: int := 500

  datatype Response = Response(header: Option<int>, body: string) {

    /** The status code the client receives. */
    function Status(): int {
      header.GetOr(StatusOK)
    }
  }

  /** A response nothing has been written to yet. */
  const Unwritten: Response := Response(None, "")

  /** http.Error: write the header with `code` (if none was written yet)
      and the message followed by a newline. */
  function Error(w: Response, msg: string, code: int): (w': Response)
    ensures w.header.Some? ==> w'.Status() == w.Status()
    ensures w.header.None? ==> w'.Status() == code
    ensures w'.header.Some? && w'.body == w.body + msg + "\n"
  {
    Response(if w.header.Some? then w.header else Some(code), w.body + msg + "\n")
  }

  /** fmt.Fprint to the writer: an implicit 200 header if none was written. */
  function Print(w: Response, text: string): (w': Response)
    ensures w.header.Some? ==> w'.Status() == w.Status()
    ensures w.header.None? ==> w'.Status() == StatusOK
    ensures w'.header.Some? && w'.body == w.body + text
  {
    Response(if w.header.Some? then w.header else Some(StatusOK), w.body + text)
  }

  /** A parsed request form (`r.Form`, a `url.Values`): each key with its
      values in order. */
  type Form = map<string, seq<string>>

  /** r.FormValue: the first value under `key`, or "" when there is none. */
  function FormValue(form: Form, key: string): (v: string)
    ensures key in form && |form[key]| > 0 ==> v == form[key][0]
    ensures !(key in form && |form[key]| > 0) ==> v == ""
  {
    if key in form && |form[key]| > 0 then form[key][0] else ""
  }
}
