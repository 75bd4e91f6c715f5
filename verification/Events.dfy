/** The documents, envelopes and redaction rule of the events pipeline. */
module Events {
  import opened Options

  datatype Status = Started | InProgress | Completed | Failed

  datatype HistoryEntry = HistoryEntry(status: Status, error: Option<string>)

  /** A parsed message. Payload values are opaque text: the pipeline never looks inside them. */
  datatype Envelope = Envelope(
    eventId: string, orderId: Option<string>, userId: string, kind: string, source: string,
    actor: string, payload: map<string, string>)

  datatype Document = Document(
    eventId: string, orderId: Option<string>, userId: string, kind: string, source: string,
    payload: map<string, string>, status: Status, error: Option<string>,
    history: seq<HistoryEntry>, createdBy: string, updatedBy: string)

  const PIPELINE_ACTOR := "events-pipeline"

  /** The credential-bearing types and the fields never persisted for them. */
  function RedactedFields(kind: string): seq<string> {
    if kind == "AUTH_OTP_REQUESTED" || kind == "PASSWORD_RESET_REQUESTED" then ["code"] else []
  }

  function Redacted(kind: string, payload: map<string, string>): map<string, string> {
    map field | field in payload && field !in RedactedFields(kind) :: payload[field]
  }

  method RedactPayload(kind: string, payload: map<string, string>) returns (redacted: map<string, string>)
    ensures redacted == Redacted(kind, payload)
  {
    var fields := RedactedFields(kind);
    if |fields| == 0 {
      return payload;
    }
    redacted := payload;
    for i := 0 to |fields|
      invariant redacted == map field | field in payload && field !in fields[..i] :: payload[field]
    {
      redacted := map field | field in redacted && field != fields[i] :: redacted[field];
    }
    assert fields[..|fields|] == fields;
  }

  /** The document `processRecord` builds before any I/O: everything verbatim except the payload. */
  function Seed(env: Envelope): Document {
    Document(env.eventId, env.orderId, env.userId, env.kind, env.source, Redacted(env.kind, env.payload),
             Started, None, [HistoryEntry(Started, None)], env.actor, PIPELINE_ACTOR)
  }

  /** `transition`: $set of status (and error when given), $push of one history entry. */
  function Transitioned(doc: Document, status: Status, error: Option<string>): Document {
    doc.(status := status,
         error := if error.Some? then error else doc.error,
         history := doc.history + [HistoryEntry(status, error)],
         updatedBy := PIPELINE_ACTOR)
  }

  function Statuses(history: seq<HistoryEntry>): (s: seq<Status>)
    ensures |s| == |history| && forall i :: 0 <= i < |s| ==> s[i] == history[i].status
  {
    seq(|history|, i requires 0 <= i < |history| => history[i].status)
  }

  /** The five shapes a stored history can have. */
  predicate Lifecycle(s: seq<Status>) {
    s == [Started] || s == [Started, InProgress] || s == [Started, Failed] ||
    s == [Started, InProgress, Completed] || s == [Started, InProgress, Failed]
  }

  /** Status is the last entry, and an error is recorded exactly for FAILED. */
  predicate Consistent(doc: Document) {
    && |doc.history| > 0
    && Lifecycle(Statuses(doc.history))
    && doc.status == doc.history[|doc.history| - 1].status
    && doc.error == doc.history[|doc.history| - 1].error
    && (doc.error.Some? <==> doc.status == Failed)
  }

  /** Everything but the lifecycle fields is what `env` seeded. */
  ghost predicate SeededFrom(doc: Document, env: Envelope) {
    doc == Seed(env).(status := doc.status, error := doc.error, history := doc.history)
  }

  predicate CanFollow(s: seq<Status>, next: Status) {
    (s == [Started] && (next == InProgress || next == Failed)) ||
    (s == [Started, InProgress] && (next == Completed || next == Failed))
  }

  lemma SeedIsConsistent(env: Envelope)
    ensures Consistent(Seed(env)) && SeededFrom(Seed(env), env)
    ensures Statuses(Seed(env).history) == [Started]
  {
    assert Statuses(Seed(env).history) == [Started];
  }

  lemma TransitionKeepsConsistent(doc: Document, env: Envelope, status: Status, error: Option<string>)
    requires Consistent(doc) && SeededFrom(doc, env) && CanFollow(Statuses(doc.history), status)
    requires error.Some? <==> status == Failed
    ensures Consistent(Transitioned(doc, status, error)) && SeededFrom(Transitioned(doc, status, error), env)
    ensures Statuses(Transitioned(doc, status, error).history) == Statuses(doc.history) + [status]
  {
    assert Statuses(Transitioned(doc, status, error).history) == Statuses(doc.history) + [status];
  }

  /** No stored credential: the field is gone, every other field and every other type is verbatim. */
  lemma RedactionIsExact(kind: string, payload: map<string, string>)
    ensures kind in {"AUTH_OTP_REQUESTED", "PASSWORD_RESET_REQUESTED"} ==>
              Redacted(kind, payload) == payload - {"code"}
    ensures kind !in {"AUTH_OTP_REQUESTED", "PASSWORD_RESET_REQUESTED"} ==> Redacted(kind, payload) == payload
  {
  }
}
