/**
  Enrolment of an ioBOX: the server's row-locked transactions and the device's durable state, joined by
  a network that may lose, delay, repeat and reorder messages.

  A request once sent stays deliverable for ever and any number of times; so does a reply. Losing a
  message is never delivering it.
*/
module IoBoxEnrollment {
  import opened Common

  /** Hashing and encryption, assumed to be what the protocol relies on and nothing more. */
  datatype Crypto = Crypto(
    secretHash: string -> string, keyHash: string -> string,
    encrypt: Envelope -> string, decrypt: string -> Option<Envelope>)

  ghost predicate Sound(c: Crypto) {
    && (forall a, b :: c.secretHash(a) == c.secretHash(b) ==> a == b)
    && (forall a, b :: c.keyHash(a) == c.keyHash(b) ==> a == b)
    && (forall e :: c.decrypt(c.encrypt(e)) == Some(e))
  }

  // ---------------------------------------------------------------- the server

  datatype Envelope = Envelope(id: string, key: string)
  datatype SerialRow = SerialRow(box: Option<string>, tenant: Option<string>)
  datatype Claim = Claim(secretHash: string, envelope: Option<string>, acknowledged: bool)
  datatype Box = Box(serial: string, keyHash: string, enabled: bool)
  datatype Db = Db(
    serials: map<string, SerialRow>, claims: map<string, Claim>, boxes: map<string, Box>, activeTenants: set<string>)

  function Lookup<V>(m: map<string, V>, k: string): Option<V> {
    if k in m then Some(m[k]) else None
  }

  predicate MatchesSecret(c: Crypto, secret: Option<string>, hash: string) {
    secret.Some? && secret.value != "" && c.secretHash(secret.value) == hash
  }

  /** Binds a provisioning secret to a serial, once; a failed transaction leaves no trace. */
  function BindProvisioning(c: Crypto, db: Db, serial: string, secret: Option<string>): Result<Db> {
    if secret.None? || secret.value == "" then Ok(db)
    else if serial !in db.serials then Err("unknown serial")
    else if serial in db.claims then
      if MatchesSecret(c, secret, db.claims[serial].secretHash) then Ok(db) else Err("invalid provisioning secret")
    else if db.serials[serial].box.Some? then Err("serial already paired; operator reset required")
    else Ok(db.(claims := db.claims[serial := Claim(c.secretHash(secret.value), None, false)]))
  }

  datatype Fresh = Fresh(id: string, key: string, modelKnown: bool)

  function Enrolled(c: Crypto, db: Db, serial: string, tenant: Option<string>, fr: Fresh): Db {
    var boxed := db.(
      boxes := db.boxes[fr.id := Box(serial, c.keyHash(fr.key), true)],
      serials := db.serials[serial := SerialRow(Some(fr.id), tenant)]);
    if serial in db.claims
    then boxed.(claims := db.claims[serial := db.claims[serial].(envelope := Some(c.encrypt(Envelope(fr.id, fr.key))))])
    else boxed
  }

  /** The envelope a retry is answered with: the stored one, if it is still there and the box not revoked. */
  function Redelivery(c: Crypto, db: Db, serial: string): Result<Envelope>
    requires serial in db.serials && db.serials[serial].box.Some?
  {
    var row, claim := db.serials[serial], Lookup(db.claims, serial);
    if claim.None? || claim.value.envelope.None? then Err("serial already paired")
    else if c.decrypt(claim.value.envelope.value).None? then Err("unreadable claim")
    else if row.tenant.Some? && row.tenant.value !in db.activeTenants then Err("tenant unavailable")
    else if row.box.value !in db.boxes || !db.boxes[row.box.value].enabled then Err("device revoked")
    else Ok(c.decrypt(claim.value.envelope.value).value)
  }

  function ClaimIoBox(c: Crypto, db: Db, serial: string, secret: Option<string>, tenant: Option<string>, fr: Fresh)
    : Result<(Db, Envelope)>
  {
    if serial !in db.serials then Err("unknown serial") else
    var bound := BindProvisioning(c, db, serial, secret);
    if bound.Err? then Err(bound.error) else
    var db1 := bound.value;
    if serial in db1.claims && !MatchesSecret(c, secret, db1.claims[serial].secretHash)
    then Err("invalid provisioning secret")
    else if db1.serials[serial].box.Some? then
      match Redelivery(c, db1, serial)
      case Err(e) => Err(e)
      case Ok(envelope) => Ok((db1, envelope))
    else if !fr.modelKnown then Err("serial model missing")
    else Ok((Enrolled(c, db1, serial, tenant, fr), Envelope(fr.id, fr.key)))
  }

  function Acknowledge(c: Crypto, db: Db, serial: string, id: string, tenant: Option<string>, secret: Option<string>)
    : Result<Db>
  {
    if || serial !in db.serials || db.serials[serial] != SerialRow(Some(id), tenant) || serial !in db.claims
       || !MatchesSecret(c, secret, db.claims[serial].secretHash)
    then Err("invalid pairing acknowledgement")
    else Ok(db.(claims := db.claims[serial := db.claims[serial].(envelope := None, acknowledged := true)]))
  }

  /** The bearer check in front of the acknowledgement route. */
  predicate Authenticates(c: Crypto, db: Db, key: string, id: string) {
    id in db.boxes && db.boxes[id].enabled && db.boxes[id].keyHash == c.keyHash(key)
  }

  // ---------------------------------------------------------------- the device

  datatype Identity = Identity(id: string, key: string, ackPending: bool)

  /** `stored*` survives a reboot; the rest is RAM. Empty strings stand for absent values. */
  datatype Device = Device(
    storedSecret: string, storedIdentity: Option<Identity>,
    secret: string, id: string, key: string, ackPending: bool)

  /** What happens at the device. `saved` is what the write reported; `stuck` what it did when it reported failure. */
  datatype Event =
    | MadeSecret(secretMade: string, saved: bool, stuck: bool)
    | GotIdentity(envelope: Envelope, saved: bool, stuck: bool)
    | GotAck(saved: bool, stuck: bool)
    | Rebooted

  /** One atomic flash value is written, then the RAM copy if the write verified. */
  function SaveIdentity(d: Device, i: Identity, saved: bool, stuck: bool): Device {
    if i.id == "" || i.key == "" then d
    else if saved then d.(storedIdentity := Some(i), id := i.id, key := i.key, ackPending := i.ackPending)
    else if stuck then d.(storedIdentity := Some(i))
    else d
  }

  function Apply(d: Device, e: Event): Device {
    match e
    case MadeSecret(s, saved, stuck) =>
      if saved then d.(storedSecret := s, secret := s) else if stuck then d.(storedSecret := s) else d
    case GotIdentity(env, saved, stuck) => SaveIdentity(d, Identity(env.id, env.key, true), saved, stuck)
    case GotAck(saved, stuck) => SaveIdentity(d, Identity(d.id, d.key, false), saved, stuck)
    case Rebooted =>
      var i := d.storedIdentity;
      if i.Some? then Device(d.storedSecret, i, d.storedSecret, i.value.id, i.value.key, i.value.ackPending)
      else Device(d.storedSecret, i, d.storedSecret, "", "", false)
  }

  predicate Enabled(d: Device, e: Event) {
    match e
    case MadeSecret(s, _, _) => d.key == "" && d.secret == "" && s != ""
    case GotIdentity(_, _, _) => d.key == "" && d.secret != ""
    case GotAck(_, _) => d.key != "" && d.ackPending
    case Rebooted => true
  }

  datatype Request =
    | AnnounceRequest(secret: string)
    | ClaimRequest(secret: string)
    | AckRequest(secret: string, bearer: string)

  predicate MaySend(d: Device, r: Request) {
    match r
    case AnnounceRequest(s) => d.key == "" && d.secret != "" && s == d.secret
    case ClaimRequest(s) => d.key == "" && d.secret != "" && s == d.secret
    case AckRequest(s, bearer) => d.key != "" && d.ackPending && s == d.secret && bearer == d.key
  }

  // ---------------------------------------------------------------- both, and the network

  datatype World = World(
    serial: string, db: Db, device: Device,
    requests: set<Request>,             // everything the device ever sent
    claimReplies: set<(string, Envelope)>, // every claim answered to the device, with the secret it claimed by
    ackReplies: set<string>,            // bearer keys of every acknowledgement answered
    ownSecrets: set<string>,            // every secret the device ever drew
    otherSecrets: set<string>)          // every secret anyone else ever presented

  ghost predicate ServesDevice(c: Crypto, w: World, w': World, r: Request, tenant: Option<string>, fr: Fresh) {
    && r in w.requests
    && match r
       case AnnounceRequest(s) =>
         var out := BindProvisioning(c, w.db, w.serial, Some(s));
         out.Ok? && w' == w.(db := out.value)
       case ClaimRequest(s) =>
         var out := ClaimIoBox(c, w.db, w.serial, Some(s), tenant, fr);
         && fr.id != "" && fr.key != "" && fr.id !in w.db.boxes
         && out.Ok? && w' == w.(db := out.value.0, claimReplies := w.claimReplies + {(s, out.value.1)})
       case AckRequest(s, bearer) =>
         exists id :: && Authenticates(c, w.db, bearer, id)
                      && (var out := Acknowledge(c, w.db, w.serial, id, tenant, Some(s));
                          out.Ok? && w' == w.(db := out.value, ackReplies := w.ackReplies + {bearer}))
  }

  /** Anyone else calls the same routes, about any serial, but cannot guess the device's secrets. */
  ghost predicate ServesOther(c: Crypto, w: World, w': World, db: Db, serial: string, secret: Option<string>,
                              id: string, tenant: Option<string>, fr: Fresh) {
    && (secret.Some? ==> secret.value !in w.ownSecrets)
    && fr.id != "" && fr.key != "" && fr.id !in w.db.boxes
    && (|| BindProvisioning(c, w.db, serial, secret) == Ok(db)
        || (ClaimIoBox(c, w.db, serial, secret, tenant, fr).Ok?
          && ClaimIoBox(c, w.db, serial, secret, tenant, fr).value.0 == db)
        || Acknowledge(c, w.db, serial, id, tenant, secret) == Ok(db))
    && w' == w.(db := db, otherSecrets := w.otherSecrets + if secret.Some? then {secret.value} else {})
  }

  /** Operators register serials, revoke or re-enable boxes, and activate or suspend tenants. */
  ghost predicate Operates(w: World, w': World) {
    && w' == w.(db := w'.db) && w'.db.claims == w.db.claims
    && w.db.serials.Keys <= w'.db.serials.Keys
    && (forall s | s in w'.db.serials ::
          w'.db.serials[s] == if s in w.db.serials then w.db.serials[s] else SerialRow(None, None))
    && w'.db.boxes.Keys == w.db.boxes.Keys
    && (forall b | b in w.db.boxes :: w'.db.boxes[b] == w.db.boxes[b].(enabled := w'.db.boxes[b].enabled))
  }

  ghost predicate Sends(w: World, w': World, r: Request) {
    MaySend(w.device, r) && w' == w.(requests := w.requests + {r})
  }

  ghost predicate Reacts(w: World, w': World, e: Event) {
    && Enabled(w.device, e)
    && (e.MadeSecret? ==> e.secretMade !in w.ownSecrets && e.secretMade !in w.otherSecrets)
    && (e.GotIdentity? ==> (w.device.secret, e.envelope) in w.claimReplies)
    && (e.GotAck? ==> w.device.key in w.ackReplies)
    && w' == w.(device := Apply(w.device, e),
                ownSecrets := w.ownSecrets + if e.MadeSecret? then {e.secretMade} else {})
  }

  ghost predicate Step(c: Crypto, w: World, w': World) {
    || (exists r, tenant, fr :: ServesDevice(c, w, w', r, tenant, fr))
    || (exists db, serial, secret, id, tenant, fr :: ServesOther(c, w, w', db, serial, secret, id, tenant, fr))
    || Operates(w, w')
    || (exists r :: Sends(w, w', r))
    || (exists e :: Reacts(w, w', e))
  }

  /** A device out of the box, and a server where nothing has been enrolled yet. */
  ghost predicate Init(w: World) {
    && w.db.claims == map[] && w.db.boxes == map[]
    && (forall s | s in w.db.serials :: w.db.serials[s].box.None?)
    && w.device == Device("", None, "", "", "", false)
    && w.requests == {} && w.claimReplies == {} && w.ackReplies == {} && w.ownSecrets == {} && w.otherSecrets == {}
  }

  ghost predicate IsRun(c: Crypto, run: seq<World>) {
    && 0 < |run| && Init(run[0])
    && forall i | 0 < i < |run| :: Step(c, run[i-1], run[i])
  }

  // ---------------------------------------------------------------- invariants

  /** A box is its serial's box, and a stored envelope opens to its serial's box. */
  ghost predicate ServerInv(c: Crypto, db: Db) {
    && (forall b | b in db.boxes :: && b != "" && db.boxes[b].serial in db.serials
                                    && db.serials[db.boxes[b].serial].box == Some(b))
    && (forall s | s in db.serials && db.serials[s].box.Some? ::
          db.serials[s].box.value in db.boxes && db.boxes[db.serials[s].box.value].serial == s)
    && (forall s | s in db.claims :: s in db.serials)
    && (forall s | s in db.claims && db.claims[s].envelope.Some? :: OpensToBox(c, db, s, db.claims[s].envelope.value))
  }

  ghost predicate IsBoxOf(c: Crypto, db: Db, serial: string, e: Envelope) {
    && serial in db.serials && db.serials[serial].box == Some(e.id) && e.id != "" && e.key != ""
    && e.id in db.boxes && db.boxes[e.id].keyHash == c.keyHash(e.key)
  }

  ghost predicate OpensToBox(c: Crypto, db: Db, serial: string, sealed: string) {
    c.decrypt(sealed).Some? && IsBoxOf(c, db, serial, c.decrypt(sealed).value)
  }

  /** Once the device has spoken, its secret is durable and never changes; its RAM identity is durable too. */
  ghost predicate DeviceInv(w: World) {
    var d := w.device;
    && (d.secret != "" ==> d.secret == d.storedSecret)
    && (d.storedSecret != "" ==> d.storedSecret in w.ownSecrets)
    && (w.requests != {} ==> d.secret != "")
    && (forall r | r in w.requests :: r.secret == d.storedSecret)
    && w.ownSecrets !! w.otherSecrets
    && (d.key != "" ==> d.storedIdentity.Some? && Holds(d, Envelope(d.id, d.key)))
    && (forall r | r in w.requests && r.AckRequest? :: d.storedIdentity.Some? && d.storedIdentity.value.key == r.bearer)
    && (d.storedIdentity.Some? ==>
          (d.storedSecret, Envelope(d.storedIdentity.value.id, d.storedIdentity.value.key)) in w.claimReplies)
  }

  /** The device has this identity in flash. */
  ghost predicate Holds(d: Device, e: Envelope) {
    d.storedIdentity.Some? && d.storedIdentity.value.id == e.id && d.storedIdentity.value.key == e.key
  }

  /** The serial is claimed under the device's secret, which is in flash. */
  ghost predicate BoundToDevice(c: Crypto, w: World) {
    && w.serial in w.db.claims && w.requests != {}
    && w.db.claims[w.serial].secretHash == c.secretHash(w.device.storedSecret)
  }

  ghost predicate BoundToOther(c: Crypto, w: World) {
    w.serial in w.db.claims && exists s :: s in w.otherSecrets && w.db.claims[w.serial].secretHash == c.secretHash(s)
  }

  /** Every claim answered to the device was for its bound secret and named the serial's box. */
  ghost predicate RepliesInv(c: Crypto, w: World) {
    && (w.serial in w.db.claims ==> BoundToDevice(c, w) || BoundToOther(c, w))
    && forall reply | reply in w.claimReplies ::
         BoundToDevice(c, w) && reply.0 == w.device.storedSecret && IsBoxOf(c, w.db, w.serial, reply.1)
  }

  /** The retry envelope is gone only when the device holds the identity in flash. */
  ghost predicate NotStranded(c: Crypto, w: World) {
    BoundToDevice(c, w) && w.serial in w.db.serials && w.db.serials[w.serial].box.Some? ==>
      w.db.claims[w.serial].envelope.Some? || w.device.storedIdentity.Some?
  }

  ghost predicate Inv(c: Crypto, w: World) {
    ServerInv(c, w.db) && DeviceInv(w) && RepliesInv(c, w) && NotStranded(c, w)
  }

  // ---------------------------------------------------------------- what each transaction does to the database

  /** Nothing enrolled is ever lost, moved or re-keyed; a claim keeps its secret and can only lose its envelope
      by being acknowledged. */
  ghost predicate Preserves(db: Db, db': Db) {
    && db.serials.Keys <= db'.serials.Keys
    && (forall s | s in db.serials && db.serials[s].box.Some? :: db'.serials[s] == db.serials[s])
    && (forall b | b in db.boxes :: b in db'.boxes && db'.boxes[b].keyHash == db.boxes[b].keyHash)
    && (forall s | s in db.claims :: s in db'.claims && db'.claims[s].secretHash == db.claims[s].secretHash)
  }

  lemma BindKeeps(c: Crypto, db: Db, serial: string, secret: Option<string>)
    requires ServerInv(c, db) && BindProvisioning(c, db, serial, secret).Ok?
    ensures
      var db' := BindProvisioning(c, db, serial, secret).value;
      && ServerInv(c, db') && Preserves(db, db') && db'.serials == db.serials && db'.boxes == db.boxes
      && (forall s | s in db'.claims && s != serial :: s in db.claims && db'.claims[s] == db.claims[s])
      && (serial in db'.claims && secret.Some? && secret.value != "" ==>
            db'.claims[serial].secretHash == c.secretHash(secret.value))
      && (serial in db'.claims ==>
            || (serial in db.claims && db'.claims[serial] == db.claims[serial])
            || (db.serials[serial].box.None? && db'.claims[serial].envelope.None?))
  {
  }

  lemma EnrolledKeeps(c: Crypto, db: Db, serial: string, tenant: Option<string>, fr: Fresh)
    requires Sound(c) && ServerInv(c, db) && serial in db.serials && db.serials[serial].box.None?
    requires fr.id != "" && fr.key != "" && fr.id !in db.boxes
    ensures var db' := Enrolled(c, db, serial, tenant, fr);
            && ServerInv(c, db') && Preserves(db, db') && IsBoxOf(c, db', serial, Envelope(fr.id, fr.key))
            && db'.claims.Keys == db.claims.Keys
            && (forall s | s in db.claims && s != serial :: db'.claims[s] == db.claims[s])
            && (serial in db.claims ==> db'.claims[serial].envelope.Some?)
  {
    var db' := Enrolled(c, db, serial, tenant, fr);
    EnrolledPreserves(c, db, serial, tenant, fr);
    EnrolledRows(c, db, serial, tenant, fr);
    forall s | s in db'.claims && db'.claims[s].envelope.Some?
      ensures OpensToBox(c, db', s, db'.claims[s].envelope.value)
    {
      EnrolledOpens(c, db, serial, tenant, fr, s);
    }
  }

  lemma EnrolledPreserves(c: Crypto, db: Db, serial: string, tenant: Option<string>, fr: Fresh)
    requires serial in db.serials && db.serials[serial].box.None? && fr.id != "" && fr.key != "" && fr.id !in db.boxes
    ensures var db' := Enrolled(c, db, serial, tenant, fr);
            Preserves(db, db') && IsBoxOf(c, db', serial, Envelope(fr.id, fr.key))
  {
  }

  lemma EnrolledRows(c: Crypto, db: Db, serial: string, tenant: Option<string>, fr: Fresh)
    requires ServerInv(c, db) && serial in db.serials && db.serials[serial].box.None? && fr.id != "" && fr.key != ""
    requires fr.id !in db.boxes
    ensures var db' := Enrolled(c, db, serial, tenant, fr);
            && (forall b | b in db'.boxes :: && b != "" && db'.boxes[b].serial in db'.serials
                                             && db'.serials[db'.boxes[b].serial].box == Some(b))
            && (forall s | s in db'.serials && db'.serials[s].box.Some? ::
                  db'.serials[s].box.value in db'.boxes && db'.boxes[db'.serials[s].box.value].serial == s)
  {
  }

  lemma EnrolledOpens(c: Crypto, db: Db, serial: string, tenant: Option<string>, fr: Fresh, s: string)
    requires Sound(c) && ServerInv(c, db) && serial in db.serials && db.serials[serial].box.None?
    requires fr.id != "" && fr.key != "" && fr.id !in db.boxes
    requires var db' := Enrolled(c, db, serial, tenant, fr); s in db'.claims && db'.claims[s].envelope.Some?
    ensures var db' := Enrolled(c, db, serial, tenant, fr); OpensToBox(c, db', s, db'.claims[s].envelope.value)
  {
    if s == serial {
      assert c.decrypt(c.encrypt(Envelope(fr.id, fr.key))) == Some(Envelope(fr.id, fr.key));
    } else {
      assert OpensToBox(c, db, s, db.claims[s].envelope.value);
    }
  }

  /** A claim that succeeds answers with the serial's one box, new or old. */
  lemma ClaimKeeps(c: Crypto, db: Db, serial: string, secret: Option<string>, tenant: Option<string>, fr: Fresh)
    requires Sound(c) && ServerInv(c, db) && ClaimIoBox(c, db, serial, secret, tenant, fr).Ok?
    requires fr.id != "" && fr.key != "" && fr.id !in db.boxes
    ensures
      var (db', e) := ClaimIoBox(c, db, serial, secret, tenant, fr).value;
      && ServerInv(c, db') && Preserves(db, db') && IsBoxOf(c, db', serial, e)
      && (serial in db'.claims ==> MatchesSecret(c, secret, db'.claims[serial].secretHash)
                                   && db'.claims[serial].envelope.Some?)
      && (forall s | s in db'.claims && s != serial :: s in db.claims && db'.claims[s] == db.claims[s])
      && (forall s | s in db'.serials && s != serial :: s in db.serials && db'.serials[s] == db.serials[s])
  {
    BindKeeps(c, db, serial, secret);
    var db1 := BindProvisioning(c, db, serial, secret).value;
    if db1.serials[serial].box.None? {
      EnrolledKeeps(c, db1, serial, tenant, fr);
      PreservesChains(db, db1, Enrolled(c, db1, serial, tenant, fr));
    } else {
      assert OpensToBox(c, db1, serial, db1.claims[serial].envelope.value);
    }
  }

  lemma PreservesChains(a: Db, b: Db, c: Db)
    requires Preserves(a, b) && Preserves(b, c)
    ensures Preserves(a, c)
  {
  }

  lemma AckKeeps(c: Crypto, db: Db, serial: string, id: string, tenant: Option<string>, secret: Option<string>)
    requires ServerInv(c, db) && Acknowledge(c, db, serial, id, tenant, secret).Ok?
    ensures
      var db' := Acknowledge(c, db, serial, id, tenant, secret).value;
      && ServerInv(c, db') && Preserves(db, db') && db'.serials == db.serials && db'.boxes == db.boxes
      && db'.claims.Keys == db.claims.Keys
      && (forall s | s in db'.claims && s != serial :: db'.claims[s] == db.claims[s])
      && serial in db.claims && secret.Some? && secret.value != ""
      && db.claims[serial].secretHash == c.secretHash(secret.value)
      && db'.claims[serial] == db.claims[serial].(envelope := None, acknowledged := true)
  {
    var db' := Acknowledge(c, db, serial, id, tenant, secret).value;
    forall s | s in db'.claims && db'.claims[s].envelope.Some?
      ensures OpensToBox(c, db', s, db'.claims[s].envelope.value)
    {
      assert OpensToBox(c, db, s, db.claims[s].envelope.value);
    }
  }

  /** The caller shows the secret the serial is bound to. */
  predicate ShowsSecret(c: Crypto, db: Db, serial: string, secret: Option<string>) {
    && serial in db.claims && secret.Some? && secret.value != ""
    && db.claims[serial].secretHash == c.secretHash(secret.value)
  }

  /**
    A paired serial's claim is answered exactly for its bound secret, while the envelope is kept, the box is enabled
    and the tenant, if it has one, is active.
  */
  lemma RetryAnsweredExactly(c: Crypto, db: Db, serial: string, secret: Option<string>, tenant: Option<string>,
      fr: Fresh)
    requires ServerInv(c, db) && serial in db.serials && db.serials[serial].box.Some?
    ensures ClaimIoBox(c, db, serial, secret, tenant, fr).Ok? <==>
              && ShowsSecret(c, db, serial, secret) && db.claims[serial].envelope.Some?
              && db.boxes[db.serials[serial].box.value].enabled
              && (db.serials[serial].tenant.Some? ==> db.serials[serial].tenant.value in db.activeTenants)
    ensures ClaimIoBox(c, db, serial, secret, tenant, fr).Ok? ==>
              ClaimIoBox(c, db, serial, secret, tenant, fr).value.0 == db
  {
    if serial in db.claims && db.claims[serial].envelope.Some? {
      assert OpensToBox(c, db, serial, db.claims[serial].envelope.value);
    }
  }

  /** A serial without a box is enrolled exactly if its model is known and the secret is the bound one, if one is. */
  lemma FirstClaimAnsweredExactly(c: Crypto, db: Db, serial: string, secret: Option<string>, tenant: Option<string>,
      fr: Fresh)
    requires serial in db.serials ==> db.serials[serial].box.None?
    ensures ClaimIoBox(c, db, serial, secret, tenant, fr).Ok? <==>
              && serial in db.serials && fr.modelKnown
              && (serial in db.claims ==> ShowsSecret(c, db, serial, secret))
  {
  }

  /** Its first claim gives the serial an enabled box under the answered key, and keeps the answer for retries. */
  lemma FirstClaimEnrolls(c: Crypto, db: Db, serial: string, secret: Option<string>, tenant: Option<string>, fr: Fresh)
    requires serial in db.serials && db.serials[serial].box.None?
    requires ClaimIoBox(c, db, serial, secret, tenant, fr).Ok?
    ensures
      var (db', e) := ClaimIoBox(c, db, serial, secret, tenant, fr).value;
      && e == Envelope(fr.id, fr.key) && db'.activeTenants == db.activeTenants
      && db'.serials == db.serials[serial := SerialRow(Some(e.id), tenant)]
      && db'.boxes == db.boxes[e.id := Box(serial, c.keyHash(e.key), true)]
      && Authenticates(c, db', e.key, e.id)
      && (serial in db'.claims <==> serial in db.claims || Given(secret))
      && (serial in db'.claims ==> db'.claims[serial].envelope == Some(c.encrypt(e)))
  {
  }

  /** A serial is bound exactly to the secret it is bound to already, or to a first one while it has no box. */
  lemma BoundExactly(c: Crypto, db: Db, serial: string, secret: string)
    requires secret != ""
    ensures BindProvisioning(c, db, serial, Some(secret)).Ok? <==>
              && serial in db.serials
              && if serial in db.claims then ShowsSecret(c, db, serial, Some(secret)) else db.serials[serial].box.None?
    ensures BindProvisioning(c, db, serial, Some(secret)).Ok? ==>
              BindProvisioning(c, db, serial, Some(secret)).value ==
                if serial in db.claims then db
                else db.(claims := db.claims[serial := Claim(c.secretHash(secret), None, false)])
  {
  }

  /** An acknowledgement is accepted exactly for the serial's own box and tenant and its bound secret. */
  lemma AcknowledgedExactly(c: Crypto, db: Db, serial: string, id: string, tenant: Option<string>,
      secret: Option<string>)
    ensures Acknowledge(c, db, serial, id, tenant, secret).Ok? <==>
              && ShowsSecret(c, db, serial, secret) && serial in db.serials
              && db.serials[serial].box == Some(id) && db.serials[serial].tenant == tenant
  {
  }

  // ---------------------------------------------------------------- the invariant is inductive

  lemma IsBoxOfPreserved(c: Crypto, db: Db, db': Db, serial: string, e: Envelope)
    requires IsBoxOf(c, db, serial, e) && Preserves(db, db')
    ensures IsBoxOf(c, db', serial, e)
  {
  }

  lemma RepliesPreserved(c: Crypto, w: World, w': World)
    requires Inv(c, w) && Preserves(w.db, w'.db)
    requires w' == w.(db := w'.db, ackReplies := w'.ackReplies)
    requires w.serial in w'.db.claims && w.serial !in w.db.claims ==> BoundToDevice(c, w') || BoundToOther(c, w')
    ensures RepliesInv(c, w') && DeviceInv(w')
  {
    forall reply | reply in w'.claimReplies ensures IsBoxOf(c, w'.db, w'.serial, reply.1) {
      IsBoxOfPreserved(c, w.db, w'.db, w.serial, reply.1);
    }
  }

  lemma AnnounceServed(c: Crypto, w: World, w': World, s: string)
    requires Sound(c) && Inv(c, w) && AnnounceRequest(s) in w.requests
    requires BindProvisioning(c, w.db, w.serial, Some(s)).Ok?
    requires w' == w.(db := BindProvisioning(c, w.db, w.serial, Some(s)).value)
    ensures Inv(c, w')
  {
    BindKeeps(c, w.db, w.serial, Some(s));
    RepliesPreserved(c, w, w');
  }

  lemma ClaimServed(c: Crypto, w: World, w': World, s: string, tenant: Option<string>, fr: Fresh)
    requires Sound(c) && Inv(c, w) && ClaimRequest(s) in w.requests
    requires fr.id != "" && fr.key != "" && fr.id !in w.db.boxes
    requires ClaimIoBox(c, w.db, w.serial, Some(s), tenant, fr).Ok?
    requires var (db, e) := ClaimIoBox(c, w.db, w.serial, Some(s), tenant, fr).value;
             w' == w.(db := db, claimReplies := w.claimReplies + {(s, e)})
    ensures Inv(c, w')
  {
    ClaimKeeps(c, w.db, w.serial, Some(s), tenant, fr);
    var (db, e) := ClaimIoBox(c, w.db, w.serial, Some(s), tenant, fr).value;
    assert w.serial in db.claims;
    ReplyAdded(c, w, w', s, e);
  }

  lemma ReplyAdded(c: Crypto, w: World, w': World, s: string, e: Envelope)
    requires Inv(c, w) && ClaimRequest(s) in w.requests
    requires w' == w.(db := w'.db, claimReplies := w.claimReplies + {(s, e)})
    requires ServerInv(c, w'.db) && Preserves(w.db, w'.db) && IsBoxOf(c, w'.db, w.serial, e)
    requires w.serial in w'.db.claims && w'.db.claims[w.serial].secretHash == c.secretHash(s)
    requires w'.db.claims[w.serial].envelope.Some?
    ensures Inv(c, w')
  {
    RepliesPreserved(c, w, w.(db := w'.db));
  }

  lemma AckServed(c: Crypto, w: World, w': World, s: string, bearer: string, id: string, tenant: Option<string>)
    requires Sound(c) && Inv(c, w) && AckRequest(s, bearer) in w.requests
    requires Acknowledge(c, w.db, w.serial, id, tenant, Some(s)).Ok?
    requires w' == w.(db := Acknowledge(c, w.db, w.serial, id, tenant, Some(s)).value, ackReplies := w'.ackReplies)
    ensures Inv(c, w')
  {
    AckKeeps(c, w.db, w.serial, id, tenant, Some(s));
    RepliesPreserved(c, w, w');
  }

  lemma DeviceServed(c: Crypto, w: World, w': World, r: Request, tenant: Option<string>, fr: Fresh)
    requires Sound(c) && Inv(c, w) && ServesDevice(c, w, w', r, tenant, fr)
    ensures Inv(c, w')
  {
    match r
    case AnnounceRequest(s) => AnnounceServed(c, w, w', s);
    case ClaimRequest(s) => ClaimServed(c, w, w', s, tenant, fr);
    case AckRequest(s, bearer) =>
      var id :| && Authenticates(c, w.db, bearer, id)
                && (var out := Acknowledge(c, w.db, w.serial, id, tenant, Some(s));
                    out.Ok? && w' == w.(db := out.value, ackReplies := w.ackReplies + {bearer}));
      AckServed(c, w, w', s, bearer, id, tenant);
  }

  /** What a stranger's call can do to the database: preserve it, and touch a claim only with its secret. */
  ghost predicate Limited(c: Crypto, db: Db, db': Db, serial: string, secret: Option<string>) {
    && ServerInv(c, db') && Preserves(db, db')
    && (forall s | s in db'.claims && s != serial :: s in db.claims && db'.claims[s] == db.claims[s])
    && (forall s | s in db'.serials && s != serial :: s in db.serials && db'.serials[s] == db.serials[s])
    && (serial in db'.claims && (serial !in db.claims || db'.claims[serial] != db.claims[serial]) ==>
          MatchesSecret(c, secret, db'.claims[serial].secretHash))
    && (serial in db'.claims && serial in db'.serials
        && (serial !in db.serials || db'.serials[serial] != db.serials[serial]) ==>
          MatchesSecret(c, secret, db'.claims[serial].secretHash))
  }

  lemma OtherLimited(c: Crypto, w: World, w': World, db: Db, serial: string, secret: Option<string>,
                     id: string, tenant: Option<string>, fr: Fresh)
    requires Sound(c) && Inv(c, w) && ServesOther(c, w, w', db, serial, secret, id, tenant, fr)
    ensures Limited(c, w.db, db, serial, secret)
  {
    if BindProvisioning(c, w.db, serial, secret) == Ok(db) {
      BindKeeps(c, w.db, serial, secret);
    } else if Acknowledge(c, w.db, serial, id, tenant, secret) == Ok(db) {
      AckKeeps(c, w.db, serial, id, tenant, secret);
    } else {
      ClaimKeeps(c, w.db, serial, secret, tenant, fr);
    }
  }

  lemma OtherServed(c: Crypto, w: World, w': World, db: Db, serial: string, secret: Option<string>,
                    id: string, tenant: Option<string>, fr: Fresh)
    requires Sound(c) && Inv(c, w) && ServesOther(c, w, w', db, serial, secret, id, tenant, fr)
    ensures Inv(c, w')
  {
    OtherLimited(c, w, w', db, serial, secret, id, tenant, fr);
    LimitedKeeps(c, w, w', serial, secret);
  }

  lemma LimitedKeeps(c: Crypto, w: World, w': World, serial: string, secret: Option<string>)
    requires Sound(c) && Inv(c, w) && Limited(c, w.db, w'.db, serial, secret)
    requires w' == w.(db := w'.db, otherSecrets := w.otherSecrets + if secret.Some? then {secret.value} else {})
    requires secret.Some? ==> secret.value !in w.ownSecrets
    ensures Inv(c, w')
  {
    OtherKeepsBinding(c, w, w', serial, secret);
    forall reply | reply in w'.claimReplies ensures IsBoxOf(c, w'.db, w'.serial, reply.1) {
      IsBoxOfPreserved(c, w.db, w'.db, w.serial, reply.1);
    }
    if BoundToDevice(c, w') {
      DeviceClaimUntouched(c, w, w', serial, secret);
    }
  }

  /** A stranger's call changes a claim only by binding it to the stranger's own secret. */
  lemma OtherKeepsBinding(c: Crypto, w: World, w': World, serial: string, secret: Option<string>)
    requires Inv(c, w) && Preserves(w.db, w'.db)
    requires w' == w.(db := w'.db, otherSecrets := w.otherSecrets + if secret.Some? then {secret.value} else {})
    requires secret.Some? ==> secret.value !in w.ownSecrets
    requires forall s | s in w'.db.claims && s != serial :: s in w.db.claims
    requires serial in w'.db.claims && serial !in w.db.claims ==>
               secret.Some? && w'.db.claims[serial].secretHash == c.secretHash(secret.value)
    ensures DeviceInv(w')
    ensures w'.serial in w'.db.claims ==> BoundToDevice(c, w') || BoundToOther(c, w')
  {
    if w.serial in w'.db.claims && w.serial !in w.db.claims {
      assert secret.value in w'.otherSecrets;
    }
  }

  lemma DeviceClaimUntouched(c: Crypto, w: World, w': World, serial: string, secret: Option<string>)
    requires Sound(c) && Inv(c, w) && BoundToDevice(c, w') && w'.device == w.device && w'.requests == w.requests
    requires w'.serial == w.serial && Preserves(w.db, w'.db)
    requires secret.Some? ==> secret.value !in w.ownSecrets
    requires w.serial !in w.db.claims || w'.db.claims[w.serial] != w.db.claims[w.serial] ==>
               serial == w.serial && MatchesSecret(c, secret, w'.db.claims[w.serial].secretHash)
    ensures w.serial in w.db.claims && w'.db.claims[w.serial] == w.db.claims[w.serial]
  {
    if MatchesSecret(c, secret, w'.db.claims[w.serial].secretHash) {
      assert false;
    }
  }

  lemma Operated(c: Crypto, w: World, w': World)
    requires Sound(c) && Inv(c, w) && Operates(w, w')
    ensures Inv(c, w')
  {
    assert Preserves(w.db, w'.db);
    RepliesPreserved(c, w, w');
    forall s | s in w'.db.claims && w'.db.claims[s].envelope.Some?
      ensures OpensToBox(c, w'.db, s, w'.db.claims[s].envelope.value)
    {
      assert OpensToBox(c, w.db, s, w.db.claims[s].envelope.value);
    }
  }

  lemma Sent(c: Crypto, w: World, w': World, r: Request)
    requires Sound(c) && Inv(c, w) && Sends(w, w', r)
    ensures Inv(c, w')
  {
  }

  lemma Reacted(c: Crypto, w: World, w': World, e: Event)
    requires Sound(c) && Inv(c, w) && Reacts(w, w', e)
    ensures Inv(c, w')
  {
    match e
    case MadeSecret(s, saved, stuck) =>
      forall reply | reply in w.claimReplies ensures false {
      }
    case GotIdentity(envelope, saved, stuck) =>
      assert IsBoxOf(c, w.db, w.serial, envelope);
      if w.device.storedIdentity.Some? {
        var i := w.device.storedIdentity.value;
        assert IsBoxOf(c, w.db, w.serial, Envelope(i.id, i.key));
      }
    case GotAck(saved, stuck) =>
    case Rebooted =>
      if w.device.storedIdentity.Some? {
        var i := w.device.storedIdentity.value;
        assert IsBoxOf(c, w.db, w.serial, Envelope(i.id, i.key));
      }
  }

  lemma StepInv(c: Crypto, w: World, w': World)
    requires Sound(c) && Inv(c, w) && Step(c, w, w')
    ensures Inv(c, w')
  {
    if r, tenant, fr :| ServesDevice(c, w, w', r, tenant, fr) {
      DeviceServed(c, w, w', r, tenant, fr);
    } else if db, serial, secret, id, tenant, fr :| ServesOther(c, w, w', db, serial, secret, id, tenant, fr) {
      OtherServed(c, w, w', db, serial, secret, id, tenant, fr);
    } else if Operates(w, w') {
      Operated(c, w, w');
    } else if r :| Sends(w, w', r) {
      Sent(c, w, w', r);
    } else {
      var e :| Reacts(w, w', e);
      Reacted(c, w, w', e);
    }
  }

  lemma {:induction false} RunInv(c: Crypto, run: seq<World>, i: nat)
    requires Sound(c) && IsRun(c, run) && i < |run|
    ensures Inv(c, run[i])
  {
    if i > 0 {
      RunInv(c, run, i - 1);
      StepInv(c, run[i-1], run[i]);
    }
  }

  // ---------------------------------------------------------------- what enrolment guarantees

  /** No serial ever gets a second box. */
  lemma OneBoxPerSerial(c: Crypto, run: seq<World>, i: nat, a: string, b: string)
    requires Sound(c) && IsRun(c, run) && i < |run|
    requires a in run[i].db.boxes && b in run[i].db.boxes && run[i].db.boxes[a].serial == run[i].db.boxes[b].serial
    ensures a == b
  {
    RunInv(c, run, i);
  }

  /** Every claim the device was ever answered carries the same id and key. */
  lemma ClaimRetriesAgree(c: Crypto, run: seq<World>, i: nat, a: (string, Envelope), b: (string, Envelope))
    requires Sound(c) && IsRun(c, run) && i < |run|
    requires a in run[i].claimReplies && b in run[i].claimReplies
    ensures a == b
  {
    RunInv(c, run, i);
    assert IsBoxOf(c, run[i].db, run[i].serial, a.1) && IsBoxOf(c, run[i].db, run[i].serial, b.1);
  }

  /** An identity in the device's flash, and any in its RAM, is the server's box for its serial. */
  lemma StoredIdentityIsTheBox(c: Crypto, run: seq<World>, i: nat)
    requires Sound(c) && IsRun(c, run) && i < |run|
    ensures
      var w := run[i];
      && (w.device.storedIdentity.Some? ==>
            IsBoxOf(c, w.db, w.serial, Envelope(w.device.storedIdentity.value.id, w.device.storedIdentity.value.key)))
      && (w.device.key != "" ==> IsBoxOf(c, w.db, w.serial, Envelope(w.device.id, w.device.key)))
  {
    RunInv(c, run, i);
  }

  /** The serial is paired with a box that is not revoked, for a tenant that is not suspended. */
  ghost predicate InService(w: World) {
    && w.serial in w.db.serials && w.db.serials[w.serial].box.Some?
    && w.db.serials[w.serial].box.value in w.db.boxes && w.db.boxes[w.db.serials[w.serial].box.value].enabled
    && (w.db.serials[w.serial].tenant.Some? ==> w.db.serials[w.serial].tenant.value in w.db.activeTenants)
  }

  /** The identity of the serial's box is in the device's flash. */
  ghost predicate HoldsBox(c: Crypto, w: World) {
    exists e :: Holds(w.device, e) && IsBoxOf(c, w.db, w.serial, e)
  }

  lemma IdentityIsBox(c: Crypto, w: World)
    requires Inv(c, w) && w.device.storedIdentity.Some?
    ensures HoldsBox(c, w)
  {
    var e := Envelope(w.device.storedIdentity.value.id, w.device.storedIdentity.value.key);
    assert Holds(w.device, e) && IsBoxOf(c, w.db, w.serial, e);
  }

  /**
    The device is never left paired and unable to get its key: as long as the box is in service, either the
    identity is already in flash or a claim with the secret in flash returns it.
  */
  lemma KeyAlwaysRecoverable(c: Crypto, run: seq<World>, i: nat, tenant: Option<string>, fr: Fresh)
    requires Sound(c) && IsRun(c, run) && i < |run| && BoundToDevice(c, run[i]) && InService(run[i])
    ensures
      var w := run[i];
      var answer := ClaimIoBox(c, w.db, w.serial, Some(w.device.storedSecret), tenant, fr);
      || HoldsBox(c, w)
      || (answer.Ok? && answer.value.0 == w.db && IsBoxOf(c, w.db, w.serial, answer.value.1))
  {
    RunInv(c, run, i);
    var w := run[i];
    if w.device.storedIdentity.Some? {
      IdentityIsBox(c, w);
    } else {
      assert OpensToBox(c, w.db, w.serial, w.db.claims[w.serial].envelope.value);
    }
  }

  /** In service, exactly the key in the device's flash authenticates it. */
  lemma HeldKeyAuthenticates(c: Crypto, run: seq<World>, i: nat, key: string)
    requires Sound(c) && IsRun(c, run) && i < |run| && InService(run[i]) && run[i].device.storedIdentity.Some?
    ensures var own := run[i].device.storedIdentity.value; Authenticates(c, run[i].db, key, own.id) <==> key == own.key
  {
    StoredIdentityIsTheBox(c, run, i);
  }

  /** While the serial is paired but not in service, the device is answered no claim. */
  lemma NoAnswerOutOfService(c: Crypto, run: seq<World>, i: nat)
    requires Sound(c) && IsRun(c, run) && i + 1 < |run|
    requires run[i].serial in run[i].db.serials && run[i].db.serials[run[i].serial].box.Some? && !InService(run[i])
    ensures run[i+1].claimReplies == run[i].claimReplies
  {
    RunInv(c, run, i);
    var w, w' := run[i], run[i+1];
    if r, tenant, fr :| ServesDevice(c, w, w', r, tenant, fr) {
      if r.ClaimRequest? { RetryAnsweredExactly(c, w.db, w.serial, Some(r.secret), tenant, fr); }
    }
  }

  lemma DeviceOrServerMoves(c: Crypto, w: World, w': World)
    requires Step(c, w, w')
    ensures w'.serial == w.serial && (w'.device == w.device || w'.db == w.db)
    ensures w.requests <= w'.requests
  {
  }

  lemma StepPreserves(c: Crypto, w: World, w': World)
    requires Sound(c) && Inv(c, w) && Step(c, w, w')
    ensures Preserves(w.db, w'.db)
  {
    if r, tenant, fr :| ServesDevice(c, w, w', r, tenant, fr) {
      match r
      case AnnounceRequest(s) => BindKeeps(c, w.db, w.serial, Some(s));
      case ClaimRequest(s) => ClaimKeeps(c, w.db, w.serial, Some(s), tenant, fr);
      case AckRequest(s, bearer) =>
    } else if db, serial, secret, id, tenant, fr :| ServesOther(c, w, w', db, serial, secret, id, tenant, fr) {
      OtherLimited(c, w, w', db, serial, secret, id, tenant, fr);
    }
  }

  /** The envelope is erased only by the device's own acknowledgement, with the identity already in flash. */
  lemma ErasedOnlyWhenHeld(c: Crypto, run: seq<World>, i: nat)
    requires Sound(c) && IsRun(c, run) && i + 1 < |run|
    requires BoundToDevice(c, run[i]) && run[i].db.claims[run[i].serial].envelope.Some?
    requires run[i+1].serial in run[i+1].db.claims && run[i+1].db.claims[run[i+1].serial].envelope.None?
    ensures HoldsBox(c, run[i])
  {
    RunInv(c, run, i);
    RunInv(c, run, i + 1);
    var w, w' := run[i], run[i+1];
    DeviceOrServerMoves(c, w, w');
    StepPreserves(c, w, w');
    assert OpensToBox(c, w.db, w.serial, w.db.claims[w.serial].envelope.value);
    IdentityIsBox(c, w);
  }
}
