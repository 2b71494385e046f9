/**
  The operator's adjudication: any number of concurrent calls over one database, each a sequence of
  reads, local checks and one atomic batch, beside whatever else is committed to the same records.
 */
module Adjudication {

  datatype Option<+T> = None | Some(value: T)

  // ---------------------------------------------------------------- hashes

  /** A digest stands for the bytes it was taken of. */
  datatype Digest = Sha(bytes: string)

  const PREFIX := "forecast-network:sha256:canonical-json:v1\n"

  /** `content_hash` of a record with this canonical text. */
  function Commitment(text: string): Digest { Sha(PREFIX + text) }

  const CARD_PREFIX := "forecast-network:sha256:profile-card-json:v1\n"

  /** What a published profile card with this text is retained under. */
  function CardHash(text: string): Digest { Sha(CARD_PREFIX + text) }

  // ---------------------------------------------------------------- records

  /** `judge` and `counterJudge` are the providers that the proposal came of. */
  datatype Resolution = Resolution(
    text: string,
    proposedAtMs: int,
    evidence: seq<Digest>,
    verifications: seq<string>,
    judge: string,
    counterJudge: string)

  datatype Provenance =
    Provenance(text: string, task: string, provider: string, inputHash: Digest, outputHash: Digest, createdAtMs: int)

  datatype CommandId = Admin(key: string) | Other(text: string)

  /** An event stands for its own hash; `previous` is the event it follows. */
  datatype Event = Event(
    forecastId: string,
    commandId: CommandId,
    name: string,
    oldState: string,
    newState: string,
    revision: int,
    occurredAtMs: int,
    resolution: Option<Resolution>,
    previous: Option<Event>)

  datatype Forecast = Forecast(
    id: string,
    revision: int,
    state: string,
    updatedAtMs: int,
    resolution: Option<Resolution>,
    disputes: nat,
    reviews: nat,
    head: Option<Event>)

  /** What is not modelled of the rules, as the functions it computes. */
  datatype Rules = Rules(
    /** The canonical text of a body that parses as JSON. */
    canonical: string -> Option<string>,
    /** Whether a text is the encoding of some profile card. */
    card: string -> bool,
    lower: string -> string,
    inputHash: (Forecast, Resolution) -> Digest,
    payloadText: (Resolution, Provenance) -> string,
    valid: Forecast -> bool)

  const MAX_REVISION := 9007199254740991
  const MAX_ARTIFACT := 524288
  const WINDOW_MS := 900000

  // ---------------------------------------------------------------- the call

  datatype Supplied = Supplied(hash: Digest, kind: string, body: string, media: string)

  datatype Call = Call(
    forecastId: string,
    resolution: Resolution,
    adjudicator: Provenance,
    artifacts: seq<Supplied>,
    key: string,
    expectedRevision: Option<int>,
    nowMs: int)

  datatype Named = Named(hash: Digest, kind: string, media: string)

  datatype Request =
    Request(forecastId: string, resolutionHash: Digest, adjudicatorHash: Digest, revision: Option<int>, artifacts: seq<Named>)

  /** What the request says of each artifact. */
  function NamesOf(artifacts: seq<Supplied>): seq<Named> {
    seq(|artifacts|, i requires 0 <= i < |artifacts| => Named(artifacts[i].hash, artifacts[i].kind, artifacts[i].media))
  }

  function RequestOf(c: Call): Request {
    Request(c.forecastId, Commitment(c.resolution.text), Commitment(c.adjudicator.text), c.expectedRevision,
            NamesOf(c.artifacts))
  }

  datatype Receipt = Receipt(resolutionHash: Digest, event: Event, revision: int, acceptedAtMs: int)

  datatype Refusal =
    | Invalid | TooManyArtifacts | IdempotencyConflict | NotFound | RevisionConflict | NotAllowed | BadDecisionTime
    | TooLarge | ArtifactInvalid | ArtifactMismatch | MissingEvidence | EvidenceMismatch | ValidationFailed
    | TimingReview | Unavailable

  // ---------------------------------------------------------------- the store

  datatype Operation = Operation(request: Request, forecastId: string, result: Receipt)

  /** `operations` holds the receipts of the adjudicating operator; `artifacts` the bodies by hash. */
  datatype Store = Store(
    forecasts: map<string, Forecast>,
    events: map<(string, int), Event>,
    commands: set<(string, CommandId)>,
    operations: map<string, Operation>,
    artifacts: map<Digest, string>)

  datatype Statement =
    | Guard(id: string, revision: int)
    | Update(forecast: Forecast, revision: int)
    | InsertEvent(event: Event)
    | InsertCommand(id: string, commandId: CommandId)
    | PutArtifact(hash: Digest, body: string)
    | InsertOperation(key: string, operation: Operation)

  /** One statement; None is a constraint failure. */
  function Apply(s: Store, st: Statement): Option<Store> {
    match st
    case Guard(id, revision) =>
      if id in s.forecasts && s.forecasts[id].revision == revision then Some(s) else None
    case Update(f, revision) =>
      if f.id in s.forecasts && s.forecasts[f.id].revision == revision
      then Some(s.(forecasts := s.forecasts[f.id := f])) else Some(s)
    case InsertEvent(e) =>
      if (e.forecastId, e.revision) in s.events || e in s.events.Values then None
      else Some(s.(events := s.events[(e.forecastId, e.revision) := e]))
    case InsertCommand(id, commandId) =>
      if (id, commandId) in s.commands then None else Some(s.(commands := s.commands + {(id, commandId)}))
    case PutArtifact(hash, body) =>
      Some(if hash in s.artifacts then s else s.(artifacts := s.artifacts[hash := body]))
    case InsertOperation(key, operation) =>
      if key in s.operations then None else Some(s.(operations := s.operations[key := operation]))
  }

  /** A batch: all of it or none. */
  function Execute(s: Store, batch: seq<Statement>): Option<Store>
    decreases |batch|
  {
    if batch == [] then Some(s)
    else
      match Apply(s, batch[0])
      case None => None
      case Some(t) => Execute(t, batch[1..])
  }

  // ---------------------------------------------------------------- the domain

  datatype Transition = Transition(forecast: Forecast, event: Event)

  /** The adjudicator is one of the original judges, whatever the case of the letters. */
  predicate SameProvider(rules: Rules, original: Resolution, a: Provenance) {
    rules.lower(a.provider) in {rules.lower(original.judge), rules.lower(original.counterJudge)}
  }

  /** `apply_command` for an adjudication. */
  function Decide(rules: Rules, f: Forecast, r: Resolution, a: Provenance, key: string, expected: int, now: int): Option<Transition>
  {
    if !(0 <= now <= MAX_REVISION) || expected != f.revision || now < f.updatedAtMs || f.revision >= MAX_REVISION then None
    else if f.state != "ESCALATED" || f.resolution.None? || f.disputes != f.reviews then None
    else if r.proposedAtMs != now || a.task != "ADJUDICATION" || SameProvider(rules, f.resolution.value, a) then None
    else if a.inputHash != rules.inputHash(f, r) || a.outputHash != Commitment(r.text) || a.createdAtMs != now then None
    else
      var event := Event(f.id, Admin(key), "adjudicate_resolution", f.state, "PROPOSED", f.revision + 1, now,
                         Some(r), f.head);
      var next := f.(revision := f.revision + 1, state := "PROPOSED", updatedAtMs := now, resolution := Some(r),
                  disputes := 0, reviews := 0, head := Some(event));
      if rules.valid(next) then Some(Transition(next, event)) else None
  }

  /** The command a call makes of the forecast it loaded. */
  function Decision(rules: Rules, f: Forecast, c: Call): Option<Transition> {
    Decide(rules, f, c.resolution, c.adjudicator, c.key, f.revision, c.resolution.proposedAtMs)
  }

  /** What the preview says the receipt will be. */
  function ReceiptFor(c: Call, t: Transition): Receipt {
    Receipt(Commitment(c.resolution.text), t.event, t.event.revision, c.resolution.proposedAtMs)
  }

  // ---------------------------------------------------------------- evidence

  predicate PlainOrCommitted(rules: Rules, a: Supplied) {
    || a.hash == Sha(a.body)
    || (a.media == "application/json" && rules.canonical(a.body).Some? && a.hash == Commitment(rules.canonical(a.body).value))
  }

  function Sizes(artifacts: seq<Supplied>): nat {
    if artifacts == [] then 0 else Sizes(artifacts[..|artifacts| - 1]) + |artifacts[|artifacts| - 1].body|
  }

  /** `artifact_sql`: the first artifact it refuses, if any. */
  function ArtifactRefusal(rules: Rules, artifacts: seq<Supplied>): Option<Refusal> {
    if artifacts == [] then None
    else
      var n := |artifacts| - 1;
      var a := artifacts[n];
      var earlier := ArtifactRefusal(rules, artifacts[..n]);
      if earlier.Some? then earlier
      else if |a.body| > MAX_ARTIFACT || Sizes(artifacts) > 4 * MAX_ARTIFACT then Some(TooLarge)
      else if a.media == "application/json" && rules.canonical(a.body).None? then Some(ArtifactInvalid)
      else if !PlainOrCommitted(rules, a) then Some(ArtifactMismatch)
      else None
  }

  /** The body supplied under a hash; a later one replaces an earlier one. */
  function SuppliedBody(artifacts: seq<Supplied>, hash: Digest): Option<string> {
    if artifacts == [] then None
    else if artifacts[|artifacts| - 1].hash == hash then Some(artifacts[|artifacts| - 1].body)
    else SuppliedBody(artifacts[..|artifacts| - 1], hash)
  }

  function EvidenceBody(s: Store, c: Call, hash: Digest): Option<string> {
    if SuppliedBody(c.artifacts, hash).Some? then SuppliedBody(c.artifacts, hash)
    else if hash in s.artifacts then Some(s.artifacts[hash])
    else None
  }

  // ---------------------------------------------------------------- the batch

  function Puts(artifacts: seq<Supplied>): (puts: seq<Statement>)
    ensures |puts| == |artifacts|
    ensures forall i :: 0 <= i < |puts| ==> puts[i] == PutArtifact(artifacts[i].hash, artifacts[i].body)
  {
    seq(|artifacts|, i requires 0 <= i < |artifacts| => PutArtifact(artifacts[i].hash, artifacts[i].body))
  }

  /** `record_artifact` of a record with this canonical text. */
  function Record(text: string): Statement { PutArtifact(Commitment(text), text) }

  function Records(texts: seq<string>): (puts: seq<Statement>)
    ensures |puts| == |texts| && forall i :: 0 <= i < |puts| ==> puts[i] == Record(texts[i])
  {
    seq(|texts|, i requires 0 <= i < |texts| => Record(texts[i]))
  }

  function Before(rules: Rules, c: Call): seq<Statement> {
    [Record(rules.payloadText(c.resolution, c.adjudicator))] + Puts(c.artifacts)
    + [Record(c.resolution.text), Record(c.adjudicator.text)]
  }

  function Core(f: Forecast, t: Transition): seq<Statement> {
    [Guard(f.id, f.revision), Update(t.forecast, f.revision), InsertEvent(t.event), InsertCommand(f.id, t.event.commandId)]
  }

  /** The whole batch of a successful decision. */
  function Batch(rules: Rules, f: Forecast, c: Call, t: Transition, response: Receipt): seq<Statement> {
    Core(f, t) + Before(rules, c)
    + [InsertOperation(c.key, Operation(RequestOf(c), c.forecastId, response))]
    + Records(c.resolution.verifications)
  }

  /** A text that is the canonical form of what it parses as. */
  predicate IsCanonical(rules: Rules, text: string) { rules.canonical(text) == Some(text) }

  /** The texts of the call's records are canonical, as the text of every record is. */
  predicate Recordable(rules: Rules, c: Call) {
    && IsCanonical(rules, c.resolution.text) && IsCanonical(rules, c.adjudicator.text)
    && IsCanonical(rules, rules.payloadText(c.resolution, c.adjudicator))
    && forall i :: 0 <= i < |c.resolution.verifications| ==> IsCanonical(rules, c.resolution.verifications[i])
  }

  /** Every record the call writes beside the command fits. */
  predicate Fits(c: Call) {
    && |c.resolution.text| <= MAX_ARTIFACT && |c.adjudicator.text| <= MAX_ARTIFACT
    && forall i :: 0 <= i < |c.resolution.verifications| ==> |c.resolution.verifications[i]| <= MAX_ARTIFACT
  }

  // ---------------------------------------------------------------- one call

  datatype Stage =
    | Prior
    | Load
    | Reading(snapshot: Forecast, next: nat)
    | Reviewing(snapshot: Forecast, response: Receipt, next: nat)
    | Committing(snapshot: Forecast, response: Receipt)
    | ReadingBack(error: Refusal)
    | Replied(receipt: Receipt)
    | Failed(why: Refusal)

  datatype Process = Process(call: Call, stage: Stage)

  /**
    How the database and the rest of the system answer a step: as they should; not at all; with the
    work done and the answer lost; with a refusal of their own; or, to the timing review, that the
    forecast needs none, because nobody took part in it or the question is closed.
   */
  datatype Answer = Served | Down | Lost | Rejected | Exempt

  function Start(c: Call): Stage {
    if c.expectedRevision.Some? && c.expectedRevision.value < 0 then Failed(Invalid)
    else if |c.artifacts| > 32 then Failed(TooManyArtifacts)
    else Prior
  }

  /** `prior_row`: None when the key is unused. */
  function PriorReceipt(s: Store, c: Call): Option<Stage> {
    if c.key !in s.operations then None
    else if s.operations[c.key].request != RequestOf(c) then Some(Failed(IdempotencyConflict))
    else Some(Replied(s.operations[c.key].result))
  }

  /** The checks on the loaded forecast. */
  function AfterLoad(rules: Rules, c: Call, f: Forecast): Stage {
    var at := c.resolution.proposedAtMs;
    if c.expectedRevision.Some? && f.revision != c.expectedRevision.value then Failed(RevisionConflict)
    else if f.state != "ESCALATED" then Failed(NotAllowed)
    else if !(f.updatedAtMs <= at <= c.nowMs) || c.nowMs - at > WINDOW_MS then Failed(BadDecisionTime)
    else if ArtifactRefusal(rules, c.artifacts).Some? then Failed(ArtifactRefusal(rules, c.artifacts).value)
    else Reading(f, 0)
  }

  /** After the last piece of evidence: the preview, and the records to write. */
  function Preview(rules: Rules, c: Call, f: Forecast): Stage {
    match Decision(rules, f, c)
    case None => Failed(ValidationFailed)
    case Some(t) => if Fits(c) then Reviewing(f, ReceiptFor(c, t), 0) else Failed(TooLarge)
  }

  function CheckEvidence(s: Store, c: Call, f: Forecast, i: nat): Stage
    requires i < |c.resolution.evidence|
  {
    var hash := c.resolution.evidence[i];
    var body := EvidenceBody(s, c, hash);
    if body.None? then Failed(MissingEvidence)
    else if Sha(body.value) != hash then Failed(EvidenceMismatch)
    else Reading(f, i + 1)
  }

  /** The bodies supplied under a hash. */
  function BodiesUnder(artifacts: seq<Supplied>, h: Digest): seq<string> {
    if artifacts == [] then []
    else
      var last := artifacts[|artifacts| - 1];
      BodiesUnder(artifacts[..|artifacts| - 1], h) + (if last.hash == h then [last.body] else [])
  }

  /** With the one retained, if any. */
  function Bodies(s: Store, c: Call, h: Digest): seq<string> {
    BodiesUnder(c.artifacts, h) + (if h in s.artifacts then [s.artifacts[h]] else [])
  }

  predicate AllPlain(bodies: seq<string>, h: Digest) { forall k :: 0 <= k < |bodies| ==> Sha(bodies[k]) == h }

  /** `inspect`: some body is at hand under the hash, and every one, supplied or retained, has that plain digest. */
  predicate Authentic(s: Store, c: Call, h: Digest) {
    Bodies(s, c, h) != [] && AllPlain(Bodies(s, c, h), h)
  }

  /** The timing review of one piece of evidence; it may refuse for its own reasons too. */
  function Review(s: Store, c: Call, f: Forecast, response: Receipt, i: nat, answer: Answer): Stage {
    if answer.Down? || answer.Lost? then ReadingBack(Unavailable)
    else if answer.Rejected? then ReadingBack(TimingReview)
    else if answer.Exempt? && i == 0 then Committing(f, response)
    else if i >= |c.resolution.evidence| then Committing(f, response)
    else if !Authentic(s, c, c.resolution.evidence[i]) then ReadingBack(TimingReview)
    else Reviewing(f, response, i + 1)
  }

  function CurrentRevision(s: Store, id: string): Option<int> {
    if id in s.forecasts then Some(s.forecasts[id].revision) else None
  }

  /** How a failed batch is reported. */
  function BatchError(s: Store, f: Forecast): Refusal {
    if CurrentRevision(s, f.id) != Some(f.revision) then RevisionConflict else Unavailable
  }

  /** One step of a call: the store after it, and where the call then stands. */
  function StepCall(rules: Rules, s: Store, c: Call, stage: Stage, answer: Answer): (Store, Stage) {
    match stage
    case Prior =>
      if answer != Served then (s, Failed(Unavailable))
      else if PriorReceipt(s, c).Some? then (s, PriorReceipt(s, c).value)
      else (s, Load)
    case Load =>
      if answer != Served then (s, Failed(Unavailable))
      else if c.forecastId !in s.forecasts then (s, Failed(NotFound))
      else (s, AfterLoad(rules, c, s.forecasts[c.forecastId]))
    case Reading(f, i) =>
      if i >= |c.resolution.evidence| then (s, Preview(rules, c, f))
      else if answer != Served && SuppliedBody(c.artifacts, c.resolution.evidence[i]).None? then (s, Failed(Unavailable))
      else (s, CheckEvidence(s, c, f, i))
    case Reviewing(f, response, i) =>
      if Decision(rules, f, c).None? then (s, ReadingBack(ValidationFailed))
      else (s, Review(s, c, f, response, i, answer))
    case Committing(f, response) =>
      (match Decision(rules, f, c)
       case None => (s, ReadingBack(ValidationFailed))
       case Some(t) =>
         if answer.Down? then (s, ReadingBack(Unavailable))
         else if answer.Rejected? then (s, ReadingBack(TimingReview))
         else if |rules.payloadText(c.resolution, c.adjudicator)| > MAX_ARTIFACT then (s, ReadingBack(TooLarge))
         else
           match Execute(s, Batch(rules, f, c, t, response))
           case None => (s, ReadingBack(BatchError(s, f)))
           case Some(after) => (after, if answer.Lost? then ReadingBack(Unavailable) else Replied(response)))
    case ReadingBack(error) =>
      if answer != Served then (s, Failed(Unavailable))
      else if PriorReceipt(s, c).Some? then (s, PriorReceipt(s, c).value)
      else (s, Failed(error))
    case Replied(_) => (s, stage)
    case Failed(_) => (s, stage)
  }

  // ---------------------------------------------------------------- everyone

  datatype World = World(store: Store, calls: map<nat, Process>)

  datatype Action =
    | Begin(pid: nat, call: Call)
    | Step(pid: nat, answer: Answer)
    | Publish(forecast: Forecast)
    | Change(next: Forecast, event: Event)
    | Retain(hash: Digest, body: string)

  /** A command of anyone else, committed by the same guarded batch. */
  predicate LegalChange(s: Store, next: Forecast, event: Event) {
    && next.id in s.forecasts
    && var f := s.forecasts[next.id];
    && event.forecastId == f.id && event.commandId.Other? && event.name != "adjudicate_resolution"
    && event.oldState == f.state && event.newState == next.state && event.previous == f.head
    && event.revision == next.revision == f.revision + 1
    && event.occurredAtMs == next.updatedAtMs >= f.updatedAtMs
    && next.head == Some(event)
  }

  /**
    The three senses in which a body is retained under a hash: its plain digest, the commitment of
    what it parses as, and the hash of the profile card it is.
   */
  predicate Names(rules: Rules, hash: Digest, body: string) {
    || hash == Sha(body)
    || (rules.canonical(body).Some? && hash == Commitment(rules.canonical(body).value))
    || (rules.card(body) && hash == CardHash(body))
  }

  function Next(rules: Rules, w: World, a: Action): World {
    match a
    case Begin(pid, c) =>
      if pid in w.calls || !Recordable(rules, c) then w else w.(calls := w.calls[pid := Process(c, Start(c))])
    case Step(pid, answer) =>
      if pid !in w.calls then w
      else
        var p := w.calls[pid];
        var after := StepCall(rules, w.store, p.call, p.stage, answer);
        World(after.0, w.calls[pid := Process(p.call, after.1)])
    case Publish(f) =>
      if f.id in w.store.forecasts || f.revision != 0 || f.head.Some? then w
      else w.(store := w.store.(forecasts := w.store.forecasts[f.id := f]))
    case Change(next, event) =>
      if !LegalChange(w.store, next, event) then w
      else
        (match Execute(w.store, Core(w.store.forecasts[next.id], Transition(next, event)))
         case None => w
         case Some(s) => w.(store := s))
    case Retain(hash, body) =>
      if !Names(rules, hash, body) then w
      else
        (match Apply(w.store, PutArtifact(hash, body))
         case None => w
         case Some(s) => w.(store := s))
  }

  const INITIAL := World(Store(map[], map[], {}, map[], map[]), map[])

  function Run(rules: Rules, actions: seq<Action>): World {
    if actions == [] then INITIAL else Next(rules, Run(rules, actions[..|actions| - 1]), actions[|actions| - 1])
  }
}
