/** What every interleaving of confirmations, retries, polls and acknowledgements of pairing codes keeps. */
module KioskPairingProofs {
  import opened Common
  import opened KioskPairing

  // ---------------------------------------------------------------- how a row changes

  /** A row in use stays as it is, is consumed once, or has its credentials erased; it is never reopened. */
  ghost predicate RowMoves(r: Row, r': Row) {
    || r' == r
    || (r.consumedBy.None? && r'.consumedBy.Some? && !r'.extras.acknowledged)
    || (r.consumedBy.Some? && r' == Erased(r))
  }

  lemma StepMoves(w: World, op: Op, code: string)
    requires Enabled(w, op) && code in w.db.rows && RowOk(w.db.rows[code])
    ensures code in Step(w, op).db.rows && RowMoves(w.db.rows[code], Step(w, op).db.rows[code])
    ensures RowOk(Step(w, op).db.rows[code])
  {
  }

  ghost predicate RowsOk(w: World) {
    forall code | code in w.db.rows :: RowOk(w.db.rows[code])
  }

  lemma StepRowsOk(w: World, op: Op)
    requires Enabled(w, op) && RowsOk(w)
    ensures RowsOk(Step(w, op))
  {
    forall code | code in Step(w, op).db.rows
      ensures RowOk(Step(w, op).db.rows[code])
    {
      if code in w.db.rows { StepMoves(w, op, code); }
    }
  }

  /** Everything but the credentials is settled by consumption; the credentials go only with an acknowledgement. */
  ghost predicate Keeps(r: Row, r': Row) {
    r.consumedBy.Some? ==> r' == r || r' == Erased(r)
  }

  lemma {:induction false} ConsumedRowStays(states: seq<World>, ops: seq<Op>, n: nat, m: nat, code: string)
    requires IsRun(states, ops) && n <= m <= |ops| && code in states[n].db.rows
    ensures RowsOk(states[m]) && code in states[m].db.rows
    ensures Keeps(states[n].db.rows[code], states[m].db.rows[code])
    decreases m
  {
    RunRowsOk(states, ops, m);
    if n < m {
      ConsumedRowStays(states, ops, n, m - 1, code);
      assert Happens(states, ops, m - 1);
      StepMoves(states[m-1], ops[m-1], code);
    }
  }

  lemma {:induction false} RunRowsOk(states: seq<World>, ops: seq<Op>, n: nat)
    requires IsRun(states, ops) && n <= |ops|
    ensures RowsOk(states[n])
  {
    if n > 0 {
      RunRowsOk(states, ops, n - 1);
      assert Happens(states, ops, n - 1);
      StepRowsOk(states[n-1], ops[n-1]);
    }
  }

  // ---------------------------------------------------------------- what was issued

  /** The row a first confirmation leaves behind, up to the acknowledgement. */
  ghost predicate IssueOk(rows: map<string, Row>, e: Issue) {
    && e.code in rows && e.code == e.input.code
    && var r := rows[e.code];
    && r.consumedBy == Some(e.credentials.slot.id) && r.extras.tenantSchema == Some(e.credentials.slot.schema)
    && r.extras.tenantSchema == Some(e.input.schema)
    && SameOperation(r, e.input) && r.extras.claimExpiresAt == Some(e.at + DELIVERY_GRACE_MS)
    && (!r.extras.acknowledged ==> CredentialsOf(r) == Some(e.credentials) && r.extras.claim.Sealed?)
  }

  ghost predicate IssuesOk(w: World) {
    && (forall i | 0 <= i < |w.issues| :: IssueOk(w.db.rows, w.issues[i]))
    && (forall i, j | 0 <= i < j < |w.issues| :: w.issues[i].code != w.issues[j].code)
  }

  lemma IssueStays(w: World, op: Op, e: Issue)
    requires Enabled(w, op) && RowsOk(w) && IssueOk(w.db.rows, e)
    ensures IssueOk(Step(w, op).db.rows, e)
  {
    StepMoves(w, op, e.code);
  }

  lemma StepIssuesOk(w: World, op: Op)
    requires Enabled(w, op) && RowsOk(w) && IssuesOk(w)
    ensures IssuesOk(Step(w, op))
  {
    var w' := Step(w, op);
    assert forall i | 0 <= i < |w.issues| :: IssueOk(w'.db.rows, w.issues[i]) by {
      forall i | 0 <= i < |w.issues|
        ensures IssueOk(w'.db.rows, w.issues[i])
      {
        IssueStays(w, op, w.issues[i]);
      }
    }
    if |w'.issues| > |w.issues| { NewIssueOk(w, op); }
  }

  lemma NewIssueOk(w: World, op: Op)
    requires Enabled(w, op) && IssuesOk(w) && RowsOk(w) && |Step(w, op).issues| > |w.issues|
    ensures var w' := Step(w, op);
            && w'.issues[..|w.issues|] == w.issues && |w'.issues| == |w.issues| + 1
            && IssueOk(w'.db.rows, w'.issues[|w.issues|])
            && forall i | 0 <= i < |w.issues| :: w.issues[i].code != w'.issues[|w.issues|].code
  {
    forall i | 0 <= i < |w.issues|
      ensures w.issues[i].code != op.input.code
    {
      assert IssueOk(w.db.rows, w.issues[i]);
    }
  }

  // ---------------------------------------------------------------- what polls carry

  /** The credentials a poll holds or has given out. */
  function Carried(p: Poll): Option<Credentials> {
    match p
    case Reading(_, c, _, _) => Some(c)
    case Answered(_, a) => if a.Claimed? then Some(a.credentials) else None
  }

  ghost predicate PollOk(rows: map<string, Row>, p: Poll) {
    Carried(p).Some? ==>
      && p.code in rows && rows[p.code].consumedBy.Some?
      && (!rows[p.code].extras.acknowledged ==> CredentialsOf(rows[p.code]) == Carried(p))
  }

  ghost predicate Agree(p: Poll, q: Poll) {
    p.code == q.code && Carried(p).Some? && Carried(q).Some? ==> Carried(p) == Carried(q)
  }

  ghost predicate PollsOk(w: World) {
    && (forall i | 0 <= i < |w.polls| :: PollOk(w.db.rows, w.polls[i]))
    && (forall i, j | 0 <= i < j < |w.polls| :: Agree(w.polls[i], w.polls[j]))
  }

  lemma PollStays(w: World, op: Op, p: Poll)
    requires Enabled(w, op) && RowsOk(w) && PollOk(w.db.rows, p)
    ensures PollOk(Step(w, op).db.rows, p)
  {
    if Carried(p).Some? { StepMoves(w, op, p.code); }
  }

  /** A poll's second read gives out what its first read took, or nothing. */
  lemma FinishCarries(db: Db, p: Poll)
    ensures ReadKiosk(db, p).code == p.code
    ensures Carried(ReadKiosk(db, p)).Some? ==> Carried(ReadKiosk(db, p)) == Carried(p)
  {
  }

  lemma ReadCarries(db: Db, code: string, secret: Option<string>, now: int, readable: bool)
    ensures ReadRow(db, code, secret, now, readable).code == code
    ensures Carried(ReadRow(db, code, secret, now, readable)).Some? ==>
              && code in db.rows && !db.rows[code].extras.acknowledged && db.rows[code].consumedBy.Some?
              && CredentialsOf(db.rows[code]) == Carried(ReadRow(db, code, secret, now, readable))
  {
  }

  lemma StepPollsOk(w: World, op: Op)
    requires Enabled(w, op) && RowsOk(w) && PollsOk(w)
    ensures PollsOk(Step(w, op))
  {
    var w' := Step(w, op);
    match op
    case StartPoll(code, secret, now, readable) => ReadCarries(w.db, code, secret, now, readable);
    case FinishPoll(k) =>
      FinishCarries(w.db, w.polls[k]);
      assert PollOk(w.db.rows, w.polls[k]);
      forall i, j | 0 <= i < j < |w'.polls|
        ensures Agree(w'.polls[i], w'.polls[j])
      {
        assert Agree(w.polls[i], w.polls[j]);
      }
    case _ =>
      forall i | 0 <= i < |w.polls|
        ensures PollOk(w'.db.rows, w.polls[i])
      {
        PollStays(w, op, w.polls[i]);
      }
  }

  // ---------------------------------------------------------------- what a kiosk accepts

  ghost predicate Latest(issues: seq<Issue>, i: nat)
    requires i < |issues|
  {
    forall j | i < j < |issues| :: issues[j].credentials.slot != issues[i].credentials.slot
  }

  /** A kiosk that still exists accepts the key of the last confirmation that created or rekeyed it. */
  ghost predicate KeyOk(w: World, i: nat)
    requires i < |w.issues|
  {
    var c := w.issues[i].credentials;
    Latest(w.issues, i) && c.slot in w.db.kiosks ==>
      w.db.kiosks[c.slot].key == Digest(c.kioskKey) && w.db.kiosks[c.slot].encryptKey == c.encryptKey
  }

  /** One step changes a kiosk's keys only in a first confirmation, which is recorded last. */
  lemma StepKeyOk(w: World, op: Op, i: nat)
    requires Enabled(w, op) && i < |w.issues| && KeyOk(w, i)
    ensures i < |Step(w, op).issues| && KeyOk(Step(w, op), i)
  {
    var w' := Step(w, op);
    if Latest(w'.issues, i) {
      assert Latest(w.issues, i) by {
        forall j | i < j < |w.issues|
          ensures w.issues[j].credentials.slot != w.issues[i].credentials.slot
        {
          assert w'.issues[j] == w.issues[j];
        }
      }
      if op.ConfirmCode? && FirstConfirmation(w.db, op.input, op.now, op.lowerCode, op.draws) {
        assert w'.issues[|w.issues|].credentials.slot != w'.issues[i].credentials.slot;
      }
    }
  }

  lemma NewKeyOk(w: World, op: Op)
    requires Enabled(w, op) && |Step(w, op).issues| > |w.issues|
    ensures |Step(w, op).issues| == |w.issues| + 1 && KeyOk(Step(w, op), |w.issues|)
  {
  }

  lemma StepKeysOk(w: World, op: Op)
    requires Enabled(w, op) && forall i | 0 <= i < |w.issues| :: KeyOk(w, i)
    ensures forall i | 0 <= i < |Step(w, op).issues| :: KeyOk(Step(w, op), i)
  {
    forall i | 0 <= i < |Step(w, op).issues|
      ensures KeyOk(Step(w, op), i)
    {
      if i < |w.issues| { StepKeyOk(w, op, i); } else { NewKeyOk(w, op); }
    }
  }

  // ---------------------------------------------------------------- every run

  ghost predicate Inv(w: World) {
    RowsOk(w) && IssuesOk(w) && PollsOk(w) && forall i | 0 <= i < |w.issues| :: KeyOk(w, i)
  }

  lemma {:induction false} RunInv(states: seq<World>, ops: seq<Op>, n: nat)
    requires IsRun(states, ops) && n <= |ops|
    ensures Inv(states[n])
  {
    if n > 0 {
      RunInv(states, ops, n - 1);
      assert Happens(states, ops, n - 1);
      var w, op := states[n-1], ops[n-1];
      assert RowsOk(states[n]) by { StepRowsOk(w, op); }
      assert IssuesOk(states[n]) by { StepIssuesOk(w, op); }
      assert PollsOk(states[n]) by { StepPollsOk(w, op); }
      assert forall i | 0 <= i < |states[n].issues| :: KeyOk(states[n], i) by { StepKeysOk(w, op); }
    }
  }

  /** A code creates or rekeys at most one kiosk, and none if it was used before the run. */
  lemma OneKioskPerCode(states: seq<World>, ops: seq<Op>, n: nat, code: string)
    requires IsRun(states, ops) && n <= |ops|
    ensures forall i, j | 0 <= i < |states[n].issues| && 0 <= j < |states[n].issues| ::
              states[n].issues[i].code == code && states[n].issues[j].code == code ==> i == j
    ensures code in states[0].db.rows && states[0].db.rows[code].consumedBy.Some? ==>
              forall i | 0 <= i < |states[n].issues| :: states[n].issues[i].code != code
  {
    RunInv(states, ops, n);
    if code in states[0].db.rows && states[0].db.rows[code].consumedBy.Some? {
      UsedCodeIssuesNothing(states, ops, 0, n, code);
    }
  }

  lemma {:induction false} UsedCodeIssuesNothing(states: seq<World>, ops: seq<Op>, n: nat, m: nat, code: string)
    requires IsRun(states, ops) && n <= m <= |ops| && code in states[n].db.rows
    requires states[n].db.rows[code].consumedBy.Some?
    ensures |states[n].issues| <= |states[m].issues| && states[n].issues == states[m].issues[..|states[n].issues|]
    ensures forall i | |states[n].issues| <= i < |states[m].issues| :: states[m].issues[i].code != code
    decreases m
  {
    if n < m {
      UsedCodeIssuesNothing(states, ops, n, m - 1, code);
      ConsumedRowStays(states, ops, n, m - 1, code);
      assert Happens(states, ops, m - 1);
    }
  }

  /** Only a first confirmation changes any kiosk's credentials, and it changes one kiosk. */
  lemma KioskChangesAreIssued(w: World, op: Op, slot: Slot)
    requires Enabled(w, op) && op.ConfirmCode?
    requires var k, k' := w.db.kiosks, Step(w, op).db.kiosks;
             (slot in k) != (slot in k') || (slot in k && slot in k' && k[slot] != k'[slot])
    ensures |Step(w, op).issues| == |w.issues| + 1
    ensures Step(w, op).issues[|w.issues|].code == op.input.code
    ensures Step(w, op).issues[|w.issues|].credentials.slot == slot
  {
  }

  /**
    A first confirmation that replaces a kiosk keeps its id, name and enabling and takes everything else from the
    device; one that creates a kiosk gives it a name no kiosk of the tenant had.
  */
  lemma FirstConfirmationEffect(w: World, op: Op)
    requires Enabled(w, op) && op.ConfirmCode? && FirstConfirmation(w.db, op.input, op.now, op.lowerCode, op.draws)
    ensures
      var row, r := w.db.rows[op.input.code], Confirm(w.db, op.input, op.now, op.lowerCode, op.draws).1.value;
      var slot := Slot(op.input.schema, r.kioskId);
      && slot in Step(w, op).db.kiosks
      && var k := Step(w, op).db.kiosks[slot];
      && k.name == r.kioskName && k.capabilities == row.capabilities && k.hardwareModel == row.hardwareModel
      && k.managedImage == row.extras.managedImage
      && (op.input.request.replaceKioskId.Some? ==>
            && Some(r.kioskId) == op.input.request.replaceKioskId && slot in w.db.kiosks
            && k.name == w.db.kiosks[slot].name && k.enabled == w.db.kiosks[slot].enabled
            && (op.input.force || !Mismatch(w.db.kiosks[slot], row)))
      && (op.input.request.replaceKioskId.None? ==>
            slot !in w.db.kiosks && k.enabled && k.name !in Names(w.db.kiosks, op.input.schema))
  {
    if op.input.request.replaceKioskId.None? {
      var base := BaseName(op.input, w.db.rows[op.input.code], op.lowerCode);
      FreeNameIsFirstFree(Names(w.db.kiosks, op.input.schema), Candidates(base), 0);
    }
  }

  /** The secret the row was opened with, if it was opened with one. */
  ghost predicate KnowsSecret(row: Row, secret: Option<string>) {
    match row.extras.pollingSecret
    case None => true
    case Some(Digest(k)) => k != "" && secret == Some(k)
  }

  /** The hardware models are known and differ, the images differ, or the device lacks a capability of the kiosk. */
  ghost predicate Differs(kiosk: Kiosk, row: Row) {
    || (kiosk.hardwareModel.Some? && row.hardwareModel.Some? && kiosk.hardwareModel.value != row.hardwareModel.value
        && kiosk.hardwareModel.value != "" && row.hardwareModel.value != "")
    || kiosk.managedImage != row.extras.managedImage
    || !(forall c | c in kiosk.capabilities :: c in row.capabilities)
  }

  /** The operator's name for the kiosk, or else the device's own, or else one made of the code. */
  ghost predicate IsBase(base: string, input: Input, row: Row, lowerCode: string) {
    if input.request.nameOverride.Some? && input.request.nameOverride.value != ""
        then Some(base) == input.request.nameOverride
    else if row.proposedName.Some? && row.proposedName.value != "" then Some(base) == row.proposedName
    else base == "kiosk-" + lowerCode
  }

  /** A kiosk of this tenant has the name. */
  ghost predicate Taken(db: Db, schema: string, name: string) {
    exists slot :: slot in db.kiosks && slot.schema == schema && db.kiosks[slot].name == name
  }

  /** The name as it is, then with the suffix -2, -3 and so on. */
  function Numbered(base: string, n: int): string
    requires n >= 1
  {
    if n == 1 then base else base + "-" + Decimal(n)
  }

  ghost predicate FirstNumber(db: Db, schema: string, base: string, n: int) {
    1 <= n <= 99 && !Taken(db, schema, Numbered(base, n))
    && forall m | 1 <= m < n :: Taken(db, schema, Numbered(base, m))
  }

  lemma FreeNameIsNumbered(db: Db, schema: string, base: string)
    ensures var free := FreeName(Names(db.kiosks, schema), Candidates(base), 0);
            && (free.Some? <==> exists n :: 1 <= n <= 99 && !Taken(db, schema, Numbered(base, n)))
            && (free.Some? ==> exists n :: FirstNumber(db, schema, base, n) && free.value == Numbered(base, n))
  {
    var names, all := Names(db.kiosks, schema), Candidates(base);
    FreeNameIsFirstFree(names, all, 0);
    forall n | 1 <= n <= 99
      ensures all[n-1] == Numbered(base, n) && (all[n-1] in names <==> Taken(db, schema, Numbered(base, n)))
    {
    }
    if FreeName(names, all, 0).Some? {
      var j :| FirstFree(names, all, 0, j) && FreeName(names, all, 0).value == all[j];
      assert all[j] == Numbered(base, j + 1);
      assert forall m | 1 <= m < j + 1 :: all[m-1] == Numbered(base, m) && all[m-1] in names;
      assert FirstNumber(db, schema, base, j + 1);
    } else {
      assert forall n | 1 <= n <= 99 :: all[n-1] in names && all[n-1] == Numbered(base, n);
    }
  }

  /**
    A code not used yet is confirmed exactly until it expires, for a kiosk of the tenant the device fits or is
    forced on, or for a new one as long as one of the ninety-nine names is free; the new one gets the first free.
  */
  lemma ConfirmedExactly(db: Db, input: Input, now: int, lowerCode: string, draws: Draws, base: string)
    requires input.code in db.rows && db.rows[input.code].consumedBy.None?
    requires IsBase(base, input, db.rows[input.code], lowerCode)
    ensures
      var row, r := db.rows[input.code], Confirm(db, input, now, lowerCode, draws).1;
      match input.request.replaceKioskId
      case Some(id) =>
        r.Ok? <==> && now <= row.expiresAt && Slot(input.schema, id) in db.kiosks
                   && (input.force || !Differs(db.kiosks[Slot(input.schema, id)], row))
      case None =>
        && (r.Ok? <==> && now <= row.expiresAt
                       && exists n :: 1 <= n <= 99 && !Taken(db, input.schema, Numbered(base, n)))
        && (r.Ok? ==> exists n :: FirstNumber(db, input.schema, base, n) && r.value.kioskName == Numbered(base, n))
  {
    var row := db.rows[input.code];
    assert base == BaseName(input, row, lowerCode);
    FreeNameIsNumbered(db, input.schema, base);
    if input.request.replaceKioskId.Some? {
      var slot := Slot(input.schema, input.request.replaceKioskId.value);
      assert slot in db.kiosks ==> (Mismatch(db.kiosks[slot], row) <==> Differs(db.kiosks[slot], row));
    }
  }

  /** Without a row, a code is neither confirmed nor pending; with a used one, nothing is ever created again. */
  lemma UnknownCodeRefused(db: Db, input: Input, now: int, lowerCode: string, draws: Draws, secret: Option<string>)
    requires input.code !in db.rows
    ensures Confirm(db, input, now, lowerCode, draws).0 == db && Confirm(db, input, now, lowerCode, draws).1.Err?
    ensures ReadRow(db, input.code, secret, now, true) == Answered(input.code, Expired)
  {
  }

  /**
    An acknowledgement is accepted exactly from the row's own kiosk and tenant with the right secret; it takes the
    credentials out of that row, marks it, and changes nothing else.
  */
  lemma AcknowledgedExactly(db: Db, code: string, kioskId: string, schema: string, secret: Option<string>)
    ensures
      var r := Acknowledge(db, code, kioskId, schema, secret);
      && (r.Ok? <==>
            && code in db.rows && db.rows[code].consumedBy == Some(kioskId) && KnowsSecret(db.rows[code], secret)
            && (match db.rows[code].extras.tenantSchema
                case Some(own) => own == schema
                case None => schema == "public"))
      && (r.Ok? ==>
            && r.value.kiosks == db.kiosks && r.value.rows.Keys == db.rows.Keys
            && (forall other | other in db.rows && other != code :: r.value.rows[other] == db.rows[other])
            && r.value.rows[code].extras.acknowledged && CredentialsOf(r.value.rows[code]).None?
            && r.value.rows[code].consumedBy == db.rows[code].consumedBy)
  {
  }

  /** A poll with the wrong secret fails, whatever the row's state, and carries nothing. */
  lemma WrongSecretFails(db: Db, code: string, secret: Option<string>, now: int, readable: bool)
    requires code in db.rows && !KnowsSecret(db.rows[code], secret)
    ensures ReadRow(db, code, secret, now, readable) == Answered(code, Failed)
  {
  }

  /** A kiosk disabled or deleted between a poll's two reads gets nothing; one renamed is told its new name. */
  lemma KioskReadLast(w: World, p: Poll, name: string, enabled: bool)
    requires p.Reading? && p.credentials.slot in w.db.kiosks
    ensures
      var slot := p.credentials.slot;
      && ReadKiosk(Step(w, DeleteKiosk(slot)).db, p) == Answered(p.code, Revoked)
      && ReadKiosk(Step(w, EditKiosk(slot, name, enabled)).db, p) ==
           Answered(p.code, if enabled then Claimed(p.credentials, name, p.seconds, p.demo) else Revoked)
  {
  }

  /** A sealed claim delivers nothing when it cannot be opened or holds no key. */
  lemma UnreadableClaimFails(db: Db, code: string, secret: Option<string>, now: int, readable: bool)
    requires code in db.rows && db.rows[code].extras.claim.Sealed?
    requires Carried(ReadRow(db, code, secret, now, readable)).Some?
    ensures readable && db.rows[code].extras.claim.kioskKey != "" && db.rows[code].consumedBy.Some?
  {
  }

  /** A row from an older server delivers too: until its own expiry, its key in plain text, for the public tenant. */
  lemma LegacyRowDelivers(db: Db, code: string, secret: Option<string>, now: int, readable: bool, key: string)
    requires code in db.rows && db.rows[code].extras.claim.Plain? && db.rows[code].extras.claim.legacyKey == Some(key)
    requires key != "" && db.rows[code].consumedBy.Some? && db.rows[code].extras.tenantSchema.None?
    requires db.rows[code].extras.claimExpiresAt.None? && !db.rows[code].extras.acknowledged
    ensures
      var row, p := db.rows[code], ReadRow(db, code, secret, now, readable);
      && (Carried(p).Some? <==> KnowsSecret(row, secret) && now < row.expiresAt)
      && (Carried(p).Some? ==>
            Carried(p).value
            == Credentials(Slot("public", row.consumedBy.value), key, row.extras.claim.legacyEncryptKey))
  {
  }

  /**
    Before its confirmation a code is pending exactly for the right secret until it expires, with the seconds
    rounded up.
  */
  lemma PendingExactly(db: Db, code: string, secret: Option<string>, now: int, readable: bool)
    requires code in db.rows && NewRow(db.rows[code])
    ensures
      var row, p := db.rows[code], ReadRow(db, code, secret, now, readable);
      && p.Answered?
      && (p.answer.Pending? <==> KnowsSecret(row, secret) && now < row.expiresAt)
      && (p.answer.Pending? ==>
            (p.answer.expiresInSeconds - 1) * 1000 < row.expiresAt - now <= p.answer.expiresInSeconds * 1000)
  {
    RoundedUp(db.rows[code].expiresAt - now);
  }

  /** A code just drawn is pending for whoever knows its secret, and no other code or kiosk has changed. */
  lemma InitiatedCodePends(w: World, code: string, row: Row, secret: Option<string>, now: int, readable: bool)
    requires Enabled(w, Initiate(code, row))
    ensures
      var w', p := Step(w, Initiate(code, row)), ReadRow(Step(w, Initiate(code, row)).db, code, secret, now, readable);
      && w'.db.kiosks == w.db.kiosks && w'.db.rows.Keys == w.db.rows.Keys + {code}
      && (forall other | other in w.db.rows :: w'.db.rows[other] == w.db.rows[other])
      && p.Answered? && (p.answer.Pending? <==> KnowsSecret(row, secret) && now < row.expiresAt)
  {
    PendingExactly(Step(w, Initiate(code, row)).db, code, secret, now, readable);
  }

  lemma RoundedUp(ms: int)
    ensures (Seconds(ms) - 1) * 1000 < ms <= Seconds(ms) * 1000
  {
    assert ms + 999 == Seconds(ms) * 1000 + (ms + 999) % 1000;
  }

  /**
    Once a code is confirmed, a later confirmation succeeds exactly when it asks for the same thing in the same
    tenant and the kiosk still exists; it then names the same kiosk, and it changes nothing.
  */
  lemma RepeatedConfirmAgrees(states: seq<World>, ops: seq<Op>, n: nat, m: nat)
    requires IsRun(states, ops) && n < m < |ops| && ops[n].ConfirmCode? && ops[m].ConfirmCode?
    requires ops[n].input.code == ops[m].input.code
    requires Confirm(states[n].db, ops[n].input, ops[n].now, ops[n].lowerCode, ops[n].draws).1.Ok?
    ensures
      var a, b := ops[n].input, ops[m].input;
      var paired := Confirm(states[n].db, a, ops[n].now, ops[n].lowerCode, ops[n].draws).1.value;
      var (db, r) := Confirm(states[m].db, b, ops[m].now, ops[m].lowerCode, ops[m].draws);
      var slot := Slot(a.schema, paired.kioskId);
      && db == states[m].db
      && (r.Ok? <==> b.(force := a.force) == a && slot in states[m].db.kiosks)
      && (r.Ok? ==> r.value == Paired(paired.kioskId, states[m].db.kiosks[slot].name))
  {
    var a, code := ops[n].input, ops[n].input.code;
    assert Happens(states, ops, n);
    ConfirmedRow(states[n].db, a, ops[n].now, ops[n].lowerCode, ops[n].draws);
    ConsumedRowStays(states, ops, n + 1, m, code);
    ConfirmedAgain(states[m].db, a, ops[m].input, ops[m].now, ops[m].lowerCode, ops[m].draws);
  }

  lemma ConfirmedRow(db: Db, a: Input, now: int, lowerCode: string, draws: Draws)
    requires Confirm(db, a, now, lowerCode, draws).1.Ok?
    ensures var (db', r) := Confirm(db, a, now, lowerCode, draws);
            && a.code in db'.rows && SameOperation(db'.rows[a.code], a)
            && db'.rows[a.code].consumedBy == Some(r.value.kioskId)
  {
  }

  lemma ConfirmedAgain(db: Db, a: Input, b: Input, now: int, lowerCode: string, draws: Draws)
    requires a.code == b.code && a.code in db.rows && SameOperation(db.rows[a.code], a)
        && db.rows[a.code].consumedBy.Some?
    ensures
      var id := db.rows[a.code].consumedBy.value;
      var (db', r) := Confirm(db, b, now, lowerCode, draws);
      && db' == db
      && (r.Ok? <==> b.(force := a.force) == a && Slot(a.schema, id) in db.kiosks)
      && (r.Ok? ==> r.value == Paired(id, db.kiosks[Slot(a.schema, id)].name))
  {
  }

  /** Whatever happens between them, two polls of a code that carry credentials carry the same ones. */
  lemma ClaimedPollsAgree(states: seq<World>, ops: seq<Op>, n: nat, i: nat, j: nat)
    requires IsRun(states, ops) && n <= |ops| && i < j < |states[n].polls|
    requires states[n].polls[i].code == states[n].polls[j].code
    requires states[n].polls[i].Answered? && states[n].polls[i].answer.Claimed?
    requires states[n].polls[j].Answered? && states[n].polls[j].answer.Claimed?
    ensures states[n].polls[i].answer.credentials == states[n].polls[j].answer.credentials
  {
    RunInv(states, ops, n);
    assert Agree(states[n].polls[i], states[n].polls[j]);
  }

  /** After a confirmation, no poll that reads the row answers pending. */
  lemma NeverPendingAgain(states: seq<World>, ops: seq<Op>, n: nat, m: nat, code: string,
                          secret: Option<string>, now: int, readable: bool)
    requires IsRun(states, ops) && n <= m <= |ops| && code in states[n].db.rows
    requires states[n].db.rows[code].consumedBy.Some?
    ensures var p := ReadRow(states[m].db, code, secret, now, readable); p.Answered? ==> !p.answer.Pending?
  {
    ConsumedRowStays(states, ops, n, m, code);
  }

  /** After an acknowledgement, no poll that reads the row carries credentials, and the row holds none. */
  lemma NoCredentialsAfterAcknowledgement(states: seq<World>, ops: seq<Op>, n: nat, m: nat, code: string,
                                          secret: Option<string>, now: int, readable: bool)
    requires IsRun(states, ops) && n < m <= |ops| && ops[n].AcknowledgeCode? && ops[n].code == code
    requires Acknowledge(states[n].db, code, ops[n].kioskId, ops[n].schema, ops[n].secret).Ok?
    ensures Carried(ReadRow(states[m].db, code, secret, now, readable)).None?
    ensures code in states[m].db.rows && CredentialsOf(states[m].db.rows[code]).None?
  {
    assert Happens(states, ops, n);
    ConsumedRowStays(states, ops, n + 1, m, code);
  }

  /** A poll that read the row before the acknowledgement and the kiosk after it still gives the credentials out. */
  lemma OverlappingPollOutlivesAcknowledgement(w: World, code: string, secret: Option<string>, now: int)
    requires RowsOk(w) && code in w.db.rows && Carried(ReadRow(w.db, code, secret, now, true)).Some?
    requires var c := CredentialsOf(w.db.rows[code]);
             c.Some? && c.value.slot in w.db.kiosks && w.db.kiosks[c.value.slot].enabled
    ensures var row, c := w.db.rows[code], CredentialsOf(w.db.rows[code]).value;
            var ack := AcknowledgeCode(code, c.slot.id, c.slot.schema, secret);
            var w1 := Step(w, StartPoll(code, secret, now, true));
            var w3 := Step(Step(w1, ack), FinishPoll(|w.polls|));
            && w3.db.rows[code].extras.acknowledged
            && Carried(w3.polls[|w.polls|]) == Some(c)
            && w3.polls[|w.polls|].Answered?
  {
  }

  lemma {:induction false} PollKept(states: seq<World>, ops: seq<Op>, n: nat, m: nat, p: nat)
    requires IsRun(states, ops) && n <= m <= |ops| && p < |states[n].polls|
    requires forall k | n <= k < m :: ops[k] != FinishPoll(p)
    ensures p < |states[m].polls| && states[m].polls[p] == states[n].polls[p]
    decreases m
  {
    if n < m {
      PollKept(states, ops, n, m - 1, p);
      assert Happens(states, ops, m - 1);
    }
  }

  /**
    A poll of a code that finishes after the code's acknowledgement gives credentials out if and only if its first read
    came before the acknowledgement and took them, and the kiosk is there and enabled at its second read.
  */
  lemma PollAfterAcknowledgement(states: seq<World>, ops: seq<Op>, start: nat, ack: nat, finish: nat, p: nat)
    requires IsRun(states, ops) && start < finish < |ops| && ack < finish
    requires ops[start].StartPoll? && p == |states[start].polls| && ops[finish] == FinishPoll(p)
    requires forall k | start < k < finish :: ops[k] != FinishPoll(p)
    requires ops[ack].AcknowledgeCode? && ops[ack].code == ops[start].code
    requires Acknowledge(states[ack].db, ops[ack].code, ops[ack].kioskId, ops[ack].schema, ops[ack].secret).Ok?
    ensures p < |states[start+1].polls| && p < |states[finish+1].polls|
    ensures
      var taken, kiosks := Carried(states[start+1].polls[p]), states[finish].db.kiosks;
      Carried(states[finish+1].polls[p]).Some? <==>
        start < ack && taken.Some? && taken.value.slot in kiosks && kiosks[taken.value.slot].enabled
  {
    assert Happens(states, ops, start) && Happens(states, ops, finish);
    var op := ops[start];
    var read := ReadRow(states[start].db, op.code, op.secret, op.now, op.readable);
    PollKept(states, ops, start + 1, finish, p);
    assert states[finish].polls[p] == read && !(read.Answered? && read.answer.Claimed?);
    if ack < start {
      NoCredentialsAfterAcknowledgement(states, ops, ack, start, op.code, op.secret, op.now, op.readable);
    }
  }

  /**
    Delivery: after a confirmation by this server, a poll gives out exactly the issued credentials if and only if
    its secret is right, nothing has been acknowledged, less than fifteen minutes have passed, the envelope can be
    opened and the kiosk exists and is enabled.
  */
  lemma DeliveredExactly(states: seq<World>, ops: seq<Op>, n: nat, i: nat, secret: Option<string>, now: int,
      readable: bool)
    requires IsRun(states, ops) && n <= |ops| && i < |states[n].issues|
    ensures
      var db, e := states[n].db, states[n].issues[i];
      var p := ReadKiosk(db, ReadRow(db, e.code, secret, now, readable));
      && e.code in db.rows
      && (p.Answered? && p.answer.Claimed? <==>
            && KnowsSecret(db.rows[e.code], secret) && !db.rows[e.code].extras.acknowledged
            && now < e.at + 15 * 60_000 && readable
            && e.credentials.slot in db.kiosks && db.kiosks[e.credentials.slot].enabled)
      && (p.Answered? && p.answer.Claimed? ==>
            && p.answer.credentials == e.credentials && p.answer.demo == e.input.demo
            && p.answer.name == db.kiosks[e.credentials.slot].name
            && (p.answer.expiresInSeconds - 1) * 1000 < e.at + 15 * 60_000 - now <= p.answer.expiresInSeconds * 1000)
  {
    RunInv(states, ops, n);
    assert IssueOk(states[n].db.rows, states[n].issues[i]);
    RoundedUp(states[n].issues[i].at + DELIVERY_GRACE_MS - now);
  }

  /** What a poll gives out opens the kiosk, unless a later confirmation of another code rekeyed it. */
  lemma ClaimedKeyIsTheKiosks(states: seq<World>, ops: seq<Op>, n: nat, i: nat, secret: Option<string>, now: int)
    requires IsRun(states, ops) && n <= |ops| && i < |states[n].issues| && Latest(states[n].issues, i)
    requires var p := ReadKiosk(states[n].db, ReadRow(states[n].db, states[n].issues[i].code, secret, now, true));
             p.Answered? && p.answer.Claimed?
    ensures
      var p := ReadKiosk(states[n].db, ReadRow(states[n].db, states[n].issues[i].code, secret, now, true));
      var c := p.answer.credentials;
      && c.slot in states[n].db.kiosks
      && states[n].db.kiosks[c.slot].key == Digest(c.kioskKey) && states[n].db.kiosks[c.slot].encryptKey == c.encryptKey
  {
    RunInv(states, ops, n);
    DeliveredExactly(states, ops, n, i, secret, now, true);
    assert KeyOk(states[n], i);
  }
}
