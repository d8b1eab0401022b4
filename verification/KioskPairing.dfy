/**
  Kiosk pairing: one row per pairing code, confirmed, polled and acknowledged in any order. Transactions that lock
  the row are single steps; a poll reads the row and the kiosk in two steps. Sealing and hashing are injective.
*/
module KioskPairing {
  import opened Common

  const DELIVERY_GRACE_MS: int := 15 * 60000
  const NAMES_TRIED: nat := 99      // the name itself and the suffixes 2 to 99

  datatype Digest = Digest(of: string)

  /** The credentials in a row: sealed by this server, in plain text from an older one, or erased. */
  datatype Claim =
    | Sealed(kioskKey: string, encryptKey: string)
    | Plain(legacyKey: Option<string>, legacyEncryptKey: Option<string>)

  datatype Request = Request(replaceKioskId: Option<string>, nameOverride: Option<string>, initialLabels: seq<string>)

  datatype Extras = Extras(
    managedImage: bool, pollingSecret: Option<Digest>, acknowledged: bool, claim: Claim, demo: bool,
    claimExpiresAt: Option<int>, request: Option<Request>, tenantSchema: Option<string>)

  datatype Row = Row(
    proposedName: Option<string>, hardwareModel: Option<string>, capabilities: seq<string>,
    expiresAt: int, consumedBy: Option<string>, extras: Extras)

  datatype Kiosk = Kiosk(
    name: string, key: Digest, capabilities: seq<string>, hardwareModel: Option<string>,
    managedImage: bool, enabled: bool, encryptKey: Option<string>)

  /** A kiosk lives in a tenant's schema. */
  datatype Slot = Slot(schema: string, id: string)

  datatype Db = Db(rows: map<string, Row>, kiosks: map<Slot, Kiosk>)

  datatype Input = Input(code: string, demo: bool, schema: string, force: bool, request: Request)

  /** What a confirmation draws at random. */
  datatype Draws = Draws(kioskKey: string, encryptKey: string, kioskId: string)

  datatype Paired = Paired(kioskId: string, kioskName: string)

  const ERASED: Claim := Plain(None, None)

  // ---------------------------------------------------------------- names

  /** The kiosk names in use in a schema. */
  function Names(kiosks: map<Slot, Kiosk>, schema: string): set<string> {
    set slot | slot in kiosks && slot.schema == schema :: kiosks[slot].name
  }

  function Candidate(base: string, k: nat): string {
    if k == 0 then base else base + "-" + Decimal(k + 1)
  }

  /** The candidates in the order they are tried: the name itself, then with suffix 2, 3 and so on. */
  function Candidates(base: string): (r: seq<string>) {
    seq(NAMES_TRIED, k requires 0 <= k => Candidate(base, k))
  }

  /** The first candidate from the k-th on that is not in use. */
  function FreeName(names: set<string>, candidates: seq<string>, k: nat): (r: Option<string>)
    decreases |candidates| - k
  {
    if k >= |candidates| then None
    else if candidates[k] in names then FreeName(names, candidates, k + 1)
    else Some(candidates[k])
  }

  ghost predicate FirstFree(names: set<string>, candidates: seq<string>, k: nat, j: int) {
    k <= j < |candidates| && candidates[j] !in names && forall i | k <= i < j :: candidates[i] in names
  }

  /** A name is found exactly when one of the candidates is free, and it is the first free one. */
  lemma {:induction false} FreeNameIsFirstFree(names: set<string>, candidates: seq<string>, k: nat)
    ensures FreeName(names, candidates, k).None? <==> forall j | k <= j < |candidates| :: candidates[j] in names
    ensures FreeName(names, candidates, k).Some? ==>
              exists j :: FirstFree(names, candidates, k, j) && FreeName(names, candidates, k).value == candidates[j]
    decreases |candidates| - k
  {
    if k < |candidates| {
      if candidates[k] in names {
        FreeNameIsFirstFree(names, candidates, k + 1);
        if FreeName(names, candidates, k + 1).Some? {
          var j :| FirstFree(names, candidates, k + 1, j) && FreeName(names, candidates, k + 1).value == candidates[j];
          assert FirstFree(names, candidates, k, j);
        }
      } else {
        assert FirstFree(names, candidates, k, k);
      }
    }
  }

  // ---------------------------------------------------------------- confirmation

  predicate Mismatch(existing: Kiosk, row: Row) {
    || (Given(existing.hardwareModel) && Given(row.hardwareModel) && existing.hardwareModel != row.hardwareModel)
    || existing.managedImage != row.extras.managedImage
    || exists c :: c in existing.capabilities && c !in row.capabilities
  }

  function Rekeyed(existing: Kiosk, row: Row, draws: Draws): Kiosk {
    existing.(key := Digest(draws.kioskKey), encryptKey := Some(draws.encryptKey), capabilities := row.capabilities,
              hardwareModel := row.hardwareModel, managedImage := row.extras.managedImage)
  }

  function Created(name: string, row: Row, draws: Draws): Kiosk {
    Kiosk(name, Digest(draws.kioskKey), row.capabilities, row.hardwareModel, row.extras.managedImage, true,
          Some(draws.encryptKey))
  }

  function BaseName(input: Input, row: Row, lowerCode: string): string {
    if Given(input.request.nameOverride) then input.request.nameOverride.value
    else if Given(row.proposedName) then row.proposedName.value
    else "kiosk-" + lowerCode
  }

  function Consumed(row: Row, input: Input, now: int, kioskId: string, draws: Draws): Row {
    row.(consumedBy := Some(kioskId),
         extras := row.extras.(
           claim := Sealed(draws.kioskKey, draws.encryptKey), demo := input.demo,
           claimExpiresAt := Some(now + DELIVERY_GRACE_MS), request := Some(input.request),
           tenantSchema := Some(input.schema)))
  }

  predicate SameOperation(row: Row, input: Input) {
    && row.extras.demo == input.demo && row.extras.tenantSchema == Some(input.schema)
    && row.extras.request == Some(input.request)
  }

  /** Which kiosk a first confirmation creates or rekeys, and what it becomes. */
  function Enrolment(db: Db, input: Input, row: Row, lowerCode: string, draws: Draws): Result<(Slot, Kiosk)> {
    match input.request.replaceKioskId
    case Some(id) =>
      var slot := Slot(input.schema, id);
      if slot !in db.kiosks then Err("replacement target kiosk not found")
      else if !input.force && Mismatch(db.kiosks[slot], row) then Err("replacement device differs from existing kiosk")
      else Ok((slot, Rekeyed(db.kiosks[slot], row, draws)))
    case None =>
      match FreeName(Names(db.kiosks, input.schema), Candidates(BaseName(input, row, lowerCode)), 0)
      case None => Err("could not generate unique kiosk name")
      case Some(name) => Ok((Slot(input.schema, draws.kioskId), Created(name, row, draws)))
  }

  function Retry(db: Db, input: Input, row: Row): Result<Paired> {
    if !SameOperation(row, input) then Err("pairing code already used")
    else if row.consumedBy.None? || Slot(input.schema, row.consumedBy.value) !in db.kiosks then
      Err("paired kiosk no longer exists")
    else Ok(Paired(row.consumedBy.value, db.kiosks[Slot(input.schema, row.consumedBy.value)].name))
  }

  function Confirm(db: Db, input: Input, now: int, lowerCode: string, draws: Draws): (Db, Result<Paired>) {
    if input.code !in db.rows then (db, Err("pairing code not found"))
    else
      var row := db.rows[input.code];
      if row.consumedBy.Some? then (db, Retry(db, input, row))
      else if row.expiresAt < now then (db, Err("pairing code expired"))
      else
        match Enrolment(db, input, row, lowerCode, draws)
        case Err(e) => (db, Err(e))
        case Ok((slot, kiosk)) =>
          (Db(db.rows[input.code := Consumed(row, input, now, slot.id, draws)], db.kiosks[slot := kiosk]),
           Ok(Paired(slot.id, kiosk.name)))
  }

  // ---------------------------------------------------------------- polling and acknowledgement

  predicate Matches(secret: Option<string>, hash: Digest) {
    Given(secret) && Digest(secret.value) == hash
  }

  predicate Authorised(row: Row, secret: Option<string>) {
    row.extras.pollingSecret.Some? ==> Matches(secret, row.extras.pollingSecret.value)
  }

  datatype Credentials = Credentials(slot: Slot, kioskKey: string, encryptKey: Option<string>)

  datatype Answer =
    | Pending(expiresInSeconds: int)
    | Claimed(credentials: Credentials, name: string, expiresInSeconds: int, demo: bool)
    | Expired | Failed | Acknowledged | Revoked

  /** A poll between its two reads holds the credentials it took from the row. */
  datatype Poll = Reading(code: string, credentials: Credentials, seconds: int, demo: bool) | Answered(code: string,
      answer: Answer)

  function SchemaOf(row: Row): string {
    if row.extras.tenantSchema.Some? then row.extras.tenantSchema.value else "public"
  }

  function Expiry(row: Row): int {
    if row.consumedBy.Some? && row.extras.claimExpiresAt.Some? then row.extras.claimExpiresAt.value else row.expiresAt
  }

  /** The credentials in a consumed row, if it still has a key. */
  function CredentialsOf(row: Row): Option<Credentials> {
    if row.consumedBy.None? then None
    else
      var slot := Slot(SchemaOf(row), row.consumedBy.value);
      match row.extras.claim
      case Sealed(k, e) => if k == "" then None else Some(Credentials(slot, k, Some(e)))
      case Plain(k, e) => if Given(k) then Some(Credentials(slot, k.value, e)) else None
  }

  /** Whole seconds, rounded up. */
  function Seconds(ms: int): int {
    (ms + 999) / 1000
  }

  /** The first half of a poll: everything it takes from the row. `readable`: the sealed claim can be opened. */
  function ReadRow(db: Db, code: string, secret: Option<string>, now: int, readable: bool): Poll {
    if code !in db.rows then Answered(code, Expired)
    else
      var row := db.rows[code];
      if !Authorised(row, secret) then Answered(code, Failed)
      else if row.extras.acknowledged then Answered(code, Acknowledged)
      else if Expiry(row) - now <= 0 then Answered(code, Expired)
      else if row.consumedBy.None? then Answered(code, Pending(Seconds(row.expiresAt - now)))
      else if row.extras.claim.Sealed? && !readable then Answered(code, Failed)
      else
        match CredentialsOf(row)
        case None => Answered(code, Failed)
        case Some(c) => Reading(code, c, Seconds(Expiry(row) - now), row.extras.demo)
  }

  /** The second half: the kiosk decides whether the credentials go out. */
  function ReadKiosk(db: Db, p: Poll): Poll {
    if p.Answered? then p
    else if p.credentials.slot !in db.kiosks || !db.kiosks[p.credentials.slot].enabled then Answered(p.code, Revoked)
    else Answered(p.code, Claimed(p.credentials, db.kiosks[p.credentials.slot].name, p.seconds, p.demo))
  }

  function Erased(row: Row): Row {
    row.(extras := row.extras.(acknowledged := true, claim := ERASED))
  }

  function Acknowledge(db: Db, code: string, kioskId: string, schema: string, secret: Option<string>): Result<Db> {
    if code !in db.rows || db.rows[code].consumedBy != Some(kioskId) || SchemaOf(db.rows[code]) != schema then
      Err("pairing session does not belong to device")
    else if !Authorised(db.rows[code], secret) then Err("invalid pairing session secret")
    else Ok(db.(rows := db.rows[code := Erased(db.rows[code])]))
  }

  // ---------------------------------------------------------------- runs

  /** A kiosk created or rekeyed: the code that did it, when, and the credentials it issued. */
  datatype Issue = Issue(code: string, input: Input, at: int, credentials: Credentials)

  datatype World = World(db: Db, issues: seq<Issue>, polls: seq<Poll>)

  datatype Op =
    | Initiate(code: string, row: Row)
    | ConfirmCode(input: Input, now: int, lowerCode: string, draws: Draws)
    | AcknowledgeCode(code: string, kioskId: string, schema: string, secret: Option<string>)
    | StartPoll(code: string, secret: Option<string>, now: int, readable: bool)
    | FinishPoll(poll: nat)
    | EditKiosk(slot: Slot, name: string, enabled: bool)
    | DeleteKiosk(slot: Slot)

  predicate NewRow(row: Row) {
    row.consumedBy.None? && !row.extras.acknowledged && row.extras.claim == ERASED && row.extras.request.None?
  }

  predicate Enabled(w: World, op: Op) {
    match op
    case Initiate(code, row) => code !in w.db.rows && NewRow(row)
    case ConfirmCode(input, _, _, draws) => draws.kioskKey != "" && Slot(input.schema, draws.kioskId) !in w.db.kiosks
    case FinishPoll(p) => p < |w.polls|
    case EditKiosk(slot, _, _) => slot in w.db.kiosks
    case _ => true
  }

  predicate FirstConfirmation(db: Db, input: Input, now: int, lowerCode: string, draws: Draws) {
    && input.code in db.rows && db.rows[input.code].consumedBy.None?
    && Confirm(db, input, now, lowerCode, draws).1.Ok?
  }

  function Issued(input: Input, now: int, draws: Draws, paired: Paired): Issue {
    Issue(input.code, input, now,
          Credentials(Slot(input.schema, paired.kioskId), draws.kioskKey, Some(draws.encryptKey)))
  }

  function Step(w: World, op: Op): World
    requires Enabled(w, op)
  {
    match op
    case Initiate(code, row) => w.(db := w.db.(rows := w.db.rows[code := row]))
    case ConfirmCode(input, now, lowerCode, draws) =>
      var (db, r) := Confirm(w.db, input, now, lowerCode, draws);
      w.(db := db, issues := if FirstConfirmation(w.db, input, now, lowerCode, draws)
                             then w.issues + [Issued(input, now, draws, r.value)] else w.issues)
    case AcknowledgeCode(code, kioskId, schema, secret) =>
      (match Acknowledge(w.db, code, kioskId, schema, secret) case Ok(db) => w.(db := db) case Err(_) => w)
    case StartPoll(code, secret, now, readable) => w.(polls := w.polls + [ReadRow(w.db, code, secret, now, readable)])
    case FinishPoll(p) => w.(polls := w.polls[p := ReadKiosk(w.db, w.polls[p])])
    case EditKiosk(slot, name, enabled) =>
      w.(db := w.db.(kiosks := w.db.kiosks[slot := w.db.kiosks[slot].(name := name, enabled := enabled)]))
    case DeleteKiosk(slot) => w.(db := w.db.(kiosks := w.db.kiosks - {slot}))
  }

  ghost predicate Happens(states: seq<World>, ops: seq<Op>, i: int)
    requires 0 <= i < |ops| < |states|
  {
    Enabled(states[i], ops[i]) && states[i+1] == Step(states[i], ops[i])
  }

  /** A row as this server or an older one may have left it. */
  ghost predicate RowOk(row: Row) {
    && (row.consumedBy.None? ==> NewRow(row))
    && (row.extras.acknowledged ==> row.extras.claim == ERASED)
  }

  /** A run starts from any such rows, whatever codes are already confirmed or acknowledged. */
  ghost predicate IsRun(states: seq<World>, ops: seq<Op>) {
    && |states| == |ops| + 1 && states[0].issues == [] && states[0].polls == []
    && (forall code | code in states[0].db.rows :: RowOk(states[0].db.rows[code]))
    && forall i | 0 <= i < |ops| :: Happens(states, ops, i)
  }
}
