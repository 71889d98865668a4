/**
 * The request handlers of the chat front end, over one session's history:
 * `index` (GET /), `predict` (POST /predict), `view_history`,
 * `edit_history` and `delete_history` (GET/POST on /…-history/<index>).
 *
 * The language-model client and the Markdown renderer are foreign code: each
 * is an oracle that either returns text or raises an exception with a message.
 * The clock is an input: the formatted timestamp `now`.
 */
module App {
  import opened Wrappers
  import opened Text
  import opened HistoryStore

  /** What a call into foreign code did: returned text, or raised with a message. */
  datatype Upstream = Returned(text: string) | Raised(message: string)

  /** The JSON payload of a reply. */
  datatype Body =
    | Created(prompt: string, responseHtml: string)   // predict: {"prompt", "response_html"}
    | Record(exchange: Exchange)                      // view-history: the stored record
    | Edited(prompt: string, responseHtml: string)    // edit-history: {"success": true, "prompt", "response_html"}
    | Deleted                                         // delete-history: {"success": true}
    | Failed(error: string)                           // {"error": ...}

  /** An HTTP reply: status code and payload. */
  datatype Reply = Reply(status: nat, body: Body)

  const NoPromptError := "No valid prompt provided."
  const InvalidIndexError := "Invalid index."
  const InvalidEditError := "Invalid index or missing prompt."
  const PredictErrorPrefix := "Error: "
  const EditErrorPrefix := "Error while regenerating response: "

  /**
   * `request.form.get("prompt", "").strip()`: a missing field reads as "", and
   * the prompt is empty exactly when the field is missing or all whitespace.
   */
  function FormPrompt(field: Option<string>): (p: string)
    ensures Tight(p)
    ensures p == [] <==> field.None? || AllSpace(field.value)
  {
    Strip(field.GetOr(""))
  }

  /**
   * The body of the `try` shared by `predict` and `edit_history`: ask the model,
   * render its text as Markdown and stamp the time. The first exception raised
   * is the failure; otherwise the record for `prompt`.
   */
  function Generate(prompt: string, model: string -> Upstream, markdown: string -> Upstream, now: string)
    : (r: Result<Exchange, string>)
    ensures r.Success? <==> model(prompt).Returned? && markdown(model(prompt).text).Returned?
    ensures r.Success? ==>
      r.value.prompt == prompt && model(prompt) == Returned(r.value.responseRaw) &&
      markdown(r.value.responseRaw) == Returned(r.value.responseHtml) && r.value.createdAt == now
    ensures model(prompt).Raised? ==> r == Failure(model(prompt).message)
    ensures model(prompt).Returned? && markdown(model(prompt).text).Raised? ==>
      r == Failure(markdown(model(prompt).text).message)
  {
    match model(prompt)
    case Raised(m) => Failure(m)
    case Returned(text) =>
      match markdown(text)
      case Raised(m) => Failure(m)
      case Returned(html) => Success(Exchange(prompt, text, html, now))
  }

  /** One browser session: its "history" entry and the application's Markdown renderer. */
  class Session {
    /** `session["history"]`: `None` while the session has no such key. */
    var stored: Option<seq<Exchange>>
    /** `markdown.markdown`, the same function for every request. */
    const markdown: string -> Upstream

    /** `session.get("history", [])`: the stored list, and the empty list while the key is missing. */
    function History(): (h: seq<Exchange>)
      reads this
      ensures stored.None? ==> h == []
      ensures stored.Some? ==> h == stored.value
    {
      stored.GetOr([])
    }

    /** What every stored record satisfies: a non-empty prompt and the rendering of its raw text. */
    predicate WellFormed(e: Exchange) {
      e.prompt != [] && markdown(e.responseRaw) == Returned(e.responseHtml)
    }

    ghost predicate Valid()
      reads this
    {
      forall k :: 0 <= k < |History()| ==> WellFormed(History()[k])
    }

    /** A new session carries no "history" key yet. */
    constructor (markdown: string -> Upstream)
      ensures this.markdown == markdown && stored == None
      ensures Valid() && History() == []
    {
      this.markdown := markdown;
      stored := None;
    }

    /** GET /: creates the empty list if the key is missing, and renders the history. */
    method Index() returns (page: seq<Exchange>)
      requires Valid()
      modifies this
      ensures Valid()
      ensures stored.Some?
      ensures old(stored).Some? ==> stored == old(stored)
      ensures History() == old(History()) && page == History()
    {
      if stored.None? {
        stored := Some([]);
      }
      page := History();
    }

    /**
     * POST /predict: the stripped prompt must be non-empty (else 400); a failure of the
     * model or of the renderer is a 500; only on success is one record appended.
     */
    method Predict(field: Option<string>, model: string -> Upstream, now: string) returns (reply: Reply)
      requires Valid()
      modifies this
      ensures Valid()
      ensures reply.status == 200 <==>
        FormPrompt(field) != [] && Generate(FormPrompt(field), model, markdown, now).Success?
      ensures reply.status != 200 ==> stored == old(stored)
      ensures FormPrompt(field) == [] ==> reply == Reply(400, Failed(NoPromptError))
      ensures FormPrompt(field) != [] && Generate(FormPrompt(field), model, markdown, now).Failure? ==>
        reply == Reply(500, Failed(PredictErrorPrefix + Generate(FormPrompt(field), model, markdown, now).error))
      ensures reply.status == 200 ==>
        var n := |old(History())|;
        stored.Some? && |History()| == n + 1 && History()[..n] == old(History()) &&
        History()[n].prompt == FormPrompt(field) && History()[n].createdAt == now &&
        model(FormPrompt(field)) == Returned(History()[n].responseRaw) &&
        markdown(History()[n].responseRaw) == Returned(History()[n].responseHtml) &&
        reply.body == Created(History()[n].prompt, History()[n].responseHtml) &&
        ViewHistory(n) == Reply(200, Record(History()[n]))
    {
      var history := History();
      var prompt := FormPrompt(field);
      if prompt == [] {
        return Reply(400, Failed(NoPromptError));
      }
      var made := Generate(prompt, model, markdown, now);
      if made.Failure? {
        return Reply(500, Failed(PredictErrorPrefix + made.error));
      }
      var e := made.value;
      var n := |history|;
      history := Append(history, e);
      stored := Some(history);
      forall k | 0 <= k < |History()| ensures WellFormed(History()[k]) {
        if k < n { assert History()[k] == old(History())[k]; }
      }
      reply := Reply(200, Created(prompt, e.responseHtml));
    }

    /** GET /view-history/<index>: the record at `index` when `0 <= index < len(history)`, else 400. */
    function ViewHistory(index: int): (r: Reply)
      reads this
      ensures r.status == 200 <==> 0 <= index < |History()|
      ensures r.status == 200 ==> r.body == Record(History()[index])
      ensures r.status != 200 ==> r == Reply(400, Failed(InvalidIndexError))
    {
      match Lookup(History(), index)
      case Some(e) => Reply(200, Record(e))
      case None => Reply(400, Failed(InvalidIndexError))
    }

    /**
     * POST /edit-history/<index>: with the index in range and a non-empty "prompt"
     * (not stripped), regenerates and overwrites that one record. An out-of-range
     * index or a missing/empty prompt is a 400; a failed regeneration is an error
     * payload with status 200. Every failure leaves the history as it was.
     */
    method EditHistory(index: int, field: Option<string>, model: string -> Upstream, now: string)
      returns (reply: Reply)
      requires Valid()
      modifies this
      ensures Valid()
      ensures !(0 <= index < |old(History())|) || field.None? || field.value == [] ==>
        reply == Reply(400, Failed(InvalidEditError)) && stored == old(stored)
      ensures (0 <= index < |old(History())| && field.Some? && field.value != [] &&
               Generate(field.value, model, markdown, now).Failure?) ==>
        reply == Reply(200, Failed(EditErrorPrefix + Generate(field.value, model, markdown, now).error)) &&
        stored == old(stored)
      ensures reply.body.Edited? <==>
        0 <= index < |old(History())| && field.Some? && field.value != [] &&
        Generate(field.value, model, markdown, now).Success?
      ensures reply.body.Edited? ==>
        stored.Some? && |History()| == |old(History())| &&
        History()[index].prompt == field.value && History()[index].createdAt == now &&
        model(field.value) == Returned(History()[index].responseRaw) &&
        reply == Reply(200, Edited(field.value, History()[index].responseHtml)) &&
        (forall j :: 0 <= j < |History()| && j != index ==> History()[j] == old(History())[j])
    {
      var history := History();
      if 0 <= index < |history| {
        if field.Some? && field.value != [] {
          var newPrompt := field.value;
          var made := Generate(newPrompt, model, markdown, now);
          match made {
            case Failure(m) =>
              return Reply(200, Failed(EditErrorPrefix + m));
            case Success(e) =>
              history := Replace(history, index, e);
              stored := Some(history);
              return Reply(200, Edited(newPrompt, e.responseHtml));
          }
        }
      }
      reply := Reply(400, Failed(InvalidEditError));
    }

    /**
     * POST /delete-history/<index>: with the index in range removes that record,
     * shifting the later ones one place left; otherwise 400 and no change.
     */
    method DeleteHistory(index: int) returns (reply: Reply)
      requires Valid()
      modifies this
      ensures Valid()
      ensures reply.status == 200 <==> 0 <= index < |old(History())|
      ensures reply.status == 200 ==> reply.body == Deleted && stored.Some?
      ensures reply.status != 200 ==> reply == Reply(400, Failed(InvalidIndexError)) && stored == old(stored)
      ensures reply.status == 200 ==>
        |History()| == |old(History())| - 1 &&
        (forall j :: 0 <= j < index ==> History()[j] == old(History())[j]) &&
        (forall j :: index <= j < |History()| ==> History()[j] == old(History())[j + 1])
      ensures reply.status == 200 ==>
        forall j :: index <= j ==> ViewHistory(j) == old(ViewHistory(j + 1))
    {
      var history := History();
      if 0 <= index < |history| {
        history := Remove(history, index);
        stored := Some(history);
        return Reply(200, Deleted);
      }
      reply := Reply(400, Failed(InvalidIndexError));
    }
  }
}
