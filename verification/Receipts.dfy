/** Gateway requests as the console shows them: events, receipts and Traffic's filter over them. */
module Receipts {
  import opened Common

  /** What a filter compares. */
  datatype Fields = Fields(key: string, team: string, project: string, model: string, verdict: string)

  /** Any of the values named for a dimension, every named dimension; a bound of 0 leaves that end open. */
  datatype ReceiptFilter = ReceiptFilter(key: seq<string>, team: seq<string>, project: seq<string>, model: seq<string>,
                                         verdict: seq<string>, since: int, before: int)

  predicate Names(vals: seq<string>, v: string) { vals == [] || v in vals }

  predicate Match(f: ReceiptFilter, v: Fields) {
    Names(f.key, v.key) && Names(f.team, v.team) && Names(f.project, v.project) && Names(f.model, v.model)
    && Names(f.verdict, v.verdict)
  }

  const ALLOWED := "allowed"
  const THROTTLED := "throttled"
  const BLOCKED := "blocked"
  const TRUNCATED := "truncated"

  function VerdictOf(status: int, usageReported: string): string {
    if status == 429 then THROTTLED
    else if status >= 400 then BLOCKED
    else if usageReported == "false" then TRUNCATED
    else ALLOWED
  }

  function ProjectId(team: string, resource: string): string { team + "/" + resource }

  /** The fields every usage query groups requests by; the meter and the event agree on them. */
  datatype Group = Group(apiKey: string, team: string, model: string, resource: string, code: string,
                         usageReported: string)

  /** One llm.request event: its time in nanoseconds since the epoch. */
  datatype RequestEvent = RequestEvent(id: string, at: nat, group: Group)

  function EventId(e: RequestEvent): string { e.id }

  /** Reading a status code from text: 0 when it is not a number. */
  type Atoi = string -> int

  function FieldsOf(atoi: Atoi, g: Group): Fields {
    Fields(g.apiKey, g.team, ProjectId(g.team, g.resource), g.model, VerdictOf(atoi(g.code), g.usageReported))
  }

  datatype Receipt = Receipt(id: string, ts: nat, fields: Fields)

  function ReceiptId(r: Receipt): string { r.id }

  const MILLISECOND := 1_000_000

  function Millis(ns: nat): nat { ns / MILLISECOND }

  function ReceiptFrom(atoi: Atoi, e: RequestEvent): Receipt {
    Receipt(e.id, Millis(e.at), FieldsOf(atoi, e.group))
  }

  // ---- What a filter asks for, in the events' own terms ----

  /** Each dimension of a filter is open or names the value. */
  predicate Wants(f: ReceiptFilter, key: string, team: string, project: string, model: string, verdict: string) {
    && (f.key == [] || key in f.key) && (f.team == [] || team in f.team)
    && (f.project == [] || project in f.project) && (f.model == [] || model in f.model)
    && (f.verdict == [] || verdict in f.verdict)
  }

  /** Which of the four verdicts an answer has: exactly one. */
  predicate HasVerdict(status: int, usageReported: string, v: string) {
    && v in {"allowed", "throttled", "blocked", "truncated"}
    && (v == "throttled" <==> status == 429)
    && (v == "blocked" <==> status >= 400 && status != 429)
    && (v == "truncated" <==> status < 400 && usageReported == "false")
  }

  /** A filter asks for an event by its own key, team, project, model and verdict. */
  ghost predicate AskedFor(atoi: Atoi, f: ReceiptFilter, g: Group) {
    exists v :: HasVerdict(atoi(g.code), g.usageReported, v)
                && Wants(f, g.apiKey, g.team, g.team + "/" + g.resource, g.model, v)
  }

  /** A row shows an event: its ID, its time in milliseconds, and its own key, team, project, model and verdict. */
  predicate Shows(atoi: Atoi, r: Receipt, e: RequestEvent) {
    && r.id == e.id && r.ts == e.at / 1_000_000
    && r.fields.key == e.group.apiKey && r.fields.team == e.group.team && r.fields.model == e.group.model
    && r.fields.project == e.group.team + "/" + e.group.resource
    && HasVerdict(atoi(e.group.code), e.group.usageReported, r.fields.verdict)
  }

  /** The verdict computed is the one an answer has. */
  lemma VerdictIsExact(status: int, usageReported: string, v: string)
    ensures v == VerdictOf(status, usageReported) <==> HasVerdict(status, usageReported, v)
  {
  }

  /** The filter lets through exactly the events it asks for. */
  lemma MatchIsAskedFor(atoi: Atoi, f: ReceiptFilter, g: Group)
    ensures Match(f, FieldsOf(atoi, g)) <==> AskedFor(atoi, f, g)
  {
    var w := VerdictOf(atoi(g.code), g.usageReported);
    forall v ensures v == w <==> HasVerdict(atoi(g.code), g.usageReported, v) {
      VerdictIsExact(atoi(g.code), g.usageReported, v);
    }
    hide VerdictOf, HasVerdict;
    assert HasVerdict(atoi(g.code), g.usageReported, w);
    assert Match(f, FieldsOf(atoi, g)) == Wants(f, g.apiKey, g.team, g.team + "/" + g.resource, g.model, w);
  }

  lemma ReceiptShowsEvent(atoi: Atoi, e: RequestEvent)
    ensures Shows(atoi, ReceiptFrom(atoi, e), e)
  {
    VerdictIsExact(atoi(e.group.code), e.group.usageReported, VerdictOf(atoi(e.group.code), e.group.usageReported));
    hide VerdictOf, HasVerdict;
  }

  /** The rows show the events asked for, each once and in the same order; at says which event each row shows. */
  ghost predicate ListedAt(atoi: Atoi, f: ReceiptFilter, es: seq<RequestEvent>, rows: seq<Receipt>, at: seq<nat>) {
    && |at| == |rows| && (forall i, j :: 0 <= i < j < |at| ==> at[i] < at[j])
    && (forall i :: 0 <= i < |at| ==>
          at[i] < |es| && AskedFor(atoi, f, es[at[i]].group) && Shows(atoi, rows[i], es[at[i]]))
    && (forall n: nat :: n < |es| && AskedFor(atoi, f, es[n].group) ==> n in at)
  }

  ghost predicate ListsAsked(atoi: Atoi, f: ReceiptFilter, es: seq<RequestEvent>, rows: seq<Receipt>) {
    exists at :: ListedAt(atoi, f, es, rows, at)
  }
}
