/** The `POST /formulario` handler of the form backend, one request at a
    time: sanitize the four text fields, reject a falsy bot-check token,
    ask the reCAPTCHA siteverify service, and insert the sanitized lead
    into the `formulario` table. The service and the SQLite store are
    modelled by two small classes whose answers are given, not computed. */
module FormSubmission {
  import opened JsValues
  import opened Sanitizer

  /** The largest rowid SQLite hands out; an AUTOINCREMENT table whose
      counter has reached it refuses further inserts. */
  const MaxRowId: int := 0x7FFF_FFFF_FFFF_FFFF

  /** The four sanitized text fields of a submitted lead. */
  datatype Lead = Lead(nombre: string, correo: string, telefono: string, mensaje: string)

  /** A row of the `formulario` table: the store-assigned id and the lead. */
  datatype Row = Row(id: int, lead: Lead)

  /** What the store reports for an INSERT: the new row's id, or an error. */
  datatype StoreResult = Inserted(id: int) | StoreError

  /** Text as `sanitize` leaves it: no `<` and no whitespace at its edges. */
  predicate CleanText(s: string)
  {
    '<' !in s && NoEdgeTrimmable(s)
  }

  predicate CleanLead(l: Lead)
  {
    CleanText(l.nombre) && CleanText(l.correo) && CleanText(l.telefono) && CleanText(l.mensaje)
  }

  ghost predicate IdsIncreasing(rows: seq<Row>)
  {
    forall i, j :: 0 <= i < j < |rows| ==> rows[i].id < rows[j].id
  }

  /** The `formulario` table: its rows in insertion order and the
      AUTOINCREMENT counter, one past the largest id ever handed out. */
  class FormularioTable {
    var rows: seq<Row>
    var nextId: int

    ghost predicate Valid()
      reads this
    {
      1 <= nextId <= MaxRowId + 1 &&
      (forall i :: 0 <= i < |rows| ==> 1 <= rows[i].id < nextId) &&
      IdsIncreasing(rows)
    }

    /** The table as `CREATE TABLE IF NOT EXISTS` leaves it on a new file. */
    constructor ()
      ensures Valid() && rows == [] && nextId == 1
    {
      rows, nextId := [], 1;
    }

    /** `INSERT INTO formulario (nombre, correo, telefono, mensaje)`. The
        store fails when `fault` holds (the file could not be opened, the
        table is missing, the disk is full, ...) or when the id counter is
        exhausted; a failed insert changes nothing. Otherwise exactly one
        row is appended, under an id larger than every id already there. */
    method Insert(lead: Lead, fault: bool) returns (res: StoreResult)
      requires Valid()
      modifies this
      ensures Valid()
      ensures res.StoreError? <==> fault || old(nextId) > MaxRowId
      ensures res.StoreError? ==> rows == old(rows) && nextId == old(nextId)
      ensures res.Inserted? ==>
        res.id == old(nextId) && nextId == old(nextId) + 1 &&
        rows == old(rows) + [Row(res.id, lead)]
      ensures res.Inserted? ==> forall r :: r in old(rows) ==> r.id < res.id
    {
      if fault || nextId > MaxRowId {
        return StoreError;
      }
      res := Inserted(nextId);
      rows := rows + [Row(nextId, lead)];
      nextId := nextId + 1;
    }
  }

  /** What `await fetch(...)` followed by `await response.json()` gives the
      handler: the parsed reply, or the exception one of them threw. */
  datatype SiteVerifyReply = Threw(error: Thrown) | Replied(data: JsValue)

  /** The reCAPTCHA siteverify service: `sent` logs the tokens posted to it,
      in order, and `reply` is what it answers. */
  class SiteVerifier {
    var sent: seq<JsValue>
    var reply: SiteVerifyReply

    constructor (reply: SiteVerifyReply)
      ensures sent == [] && this.reply == reply
    {
      sent, this.reply := [], reply;
    }

    method Verify(token: JsValue) returns (r: SiteVerifyReply)
      modifies this`sent
      ensures sent == old(sent) + [token] && r == reply
    {
      sent := sent + [token];
      r := reply;
    }
  }

  /** `data.success` as the handler reads it inside its `try`: an exception
      from the service call, from parsing or from reading a property of a
      `null` reply, or the flag itself. */
  function SuccessFlag(reply: SiteVerifyReply): (r: Result<JsValue>)
    ensures r.Err? <==> reply.Threw? || reply.data.Undefined? || reply.data.Null?
    ensures r.Ok? && reply.data.Obj? && "success" in reply.data.fields ==>
      r.value == reply.data.fields["success"]
    ensures r.Ok? && !(reply.data.Obj? && "success" in reply.data.fields) ==> r.value == Undefined
  {
    match reply
    case Threw(e) => Err(e)
    case Replied(data) => Member(data, "success")
  }

  /** The fields of the request body the handler reads. A missing field is
      `Undefined`. */
  datatype FormBody = FormBody(
    nombre: JsValue, correo: JsValue, telefono: JsValue, mensaje: JsValue,
    recaptchaResponse: JsValue)

  /** Where the handler redirects: each error names one `/?error=...`
      message, `Sent` is `/?success=...`. */
  datatype Outcome = MissingToken | VerificationFailed | VerificationError | SaveError | Sent

  function SanitizeBody(body: FormBody): (l: Lead)
    ensures CleanLead(l)
  {
    Lead(Sanitize(body.nombre), Sanitize(body.correo), Sanitize(body.telefono), Sanitize(body.mensaje))
  }

  /** The verification passed: `data.success` was read without an exception
      and is truthy. */
  predicate Passed(reply: SiteVerifyReply)
    ensures Passed(reply) <==>
      reply.Replied? && reply.data.Obj? && "success" in reply.data.fields &&
      Truthy(reply.data.fields["success"])
  {
    var flag := SuccessFlag(reply);
    flag.Ok? && Truthy(flag.value)
  }

  /** `app.post('/formulario', ...)` for one request. Inside the `try`,
      the token is first converted to a string for the request body; if
      that throws, the service is never called. */
  method SubmitForm(body: FormBody, verifier: SiteVerifier, db: FormularioTable, storeFault: bool)
    returns (out: Outcome)
    requires db.Valid()
    modifies verifier, db
    ensures db.Valid() && verifier.reply == old(verifier.reply)
    // the token check comes first and consults nothing
    ensures out == MissingToken <==> !Truthy(body.recaptchaResponse)
    // the service is called only for a truthy token that converts to a string
    ensures verifier.sent ==
      if Truthy(body.recaptchaResponse) && !ToStringThrows(body.recaptchaResponse)
      then old(verifier.sent) + [body.recaptchaResponse]
      else old(verifier.sent)
    // how the verification ends: a failed conversion of the token throws
    // inside the `try` like a failed call
    ensures out == VerificationError <==>
      Truthy(body.recaptchaResponse) &&
      (ToStringThrows(body.recaptchaResponse) || SuccessFlag(old(verifier.reply)).Err?)
    ensures out == VerificationFailed <==>
      Truthy(body.recaptchaResponse) && !ToStringThrows(body.recaptchaResponse) &&
      SuccessFlag(old(verifier.reply)).Ok? && !Passed(old(verifier.reply))
    // the insert is reached only after a passed verification
    ensures out == SaveError <==>
      Truthy(body.recaptchaResponse) && !ToStringThrows(body.recaptchaResponse) &&
      Passed(old(verifier.reply)) && (storeFault || old(db.nextId) > MaxRowId)
    ensures out == Sent <==>
      Truthy(body.recaptchaResponse) && !ToStringThrows(body.recaptchaResponse) &&
      Passed(old(verifier.reply)) && !storeFault && old(db.nextId) <= MaxRowId
    // only a reported success has changed the table, by one sanitized row
    ensures out != Sent ==> db.rows == old(db.rows) && db.nextId == old(db.nextId)
    ensures out == Sent ==>
      db.nextId == old(db.nextId) + 1 &&
      db.rows == old(db.rows) + [Row(old(db.nextId), SanitizeBody(body))] &&
      CleanLead(db.rows[|db.rows| - 1].lead) &&
      forall r :: r in old(db.rows) ==> r.id < old(db.nextId)
  {
    var lead := SanitizeBody(body);
    var token := body.recaptchaResponse;
    if !Truthy(token) {
      return MissingToken;
    }
    // building the request body `secret=...&response=${token}`
    if ToStringThrows(token) {
      return VerificationError;
    }
    var reply := verifier.Verify(token);
    var flag := SuccessFlag(reply);
    if flag.Err? {
      return VerificationError;
    }
    if !Truthy(flag.value) {
      return VerificationFailed;
    }
    var stored := db.Insert(lead, storeFault);
    if stored.StoreError? {
      return SaveError;
    }
    out := Sent;
  }

  /** A client of the contract: a token object with its own `toString`
      field ends the request in the `catch` before the service is asked,
      even though the service would have passed it. */
  method UnconvertibleTokenClient()
  {
    var verifier := new SiteVerifier(Replied(Obj(map["success" := Bool(true)])));
    var db := new FormularioTable();
    var token := Obj(map["toString" := Num(1.0)]);
    var out := SubmitForm(FormBody(Str("Ana"), Undefined, Undefined, Undefined, token), verifier, db, false);
    assert out == VerificationError && verifier.sent == [] && db.rows == [];
  }
}
