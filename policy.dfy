/**
 * Small decision rules around the ledger: who may create tokens over HTTP, which caller may
 * trigger a reconciliation through the webhook, and how a token request from a browser
 * session is paired with a connected kiosk.
 */
module Policy {
  import opened Wrappers
  import opened Queue

  // ---- Token creation over HTTP ----

  /** The admin headers of a request. */
  datatype AdminHeaders = AdminHeaders(xAdminToken: Option<string>, xAdminSecret: Option<string>)

  /** `x-admin-token || x-admin-secret || null`: the first non-empty header. */
  function ProvidedSecret(h: AdminHeaders): Option<string> {
    OrElse(h.xAdminToken, KeepTruthy(h.xAdminSecret))
  }

  /**
   * `isTokenCreationAllowed`: everything when web tokens are allowed; otherwise only a
   * request presenting the configured (non-empty) admin secret.
   */
  function IsTokenCreationAllowed(allowWebTokens: bool, adminSecret: Option<string>, h: AdminHeaders): (ok: bool)
    ensures ok <==> allowWebTokens || (Truthy(adminSecret) && ProvidedSecret(h) == adminSecret)
  {
    if allowWebTokens then true
    else if Truthy(adminSecret) then
      var provided := ProvidedSecret(h);
      Truthy(provided) && provided == adminSecret
    else false
  }

  /** With web tokens off and no secret configured, no request may create a token. */
  lemma NoSecretDeniesAll(adminSecret: Option<string>, h: AdminHeaders)
    requires !Truthy(adminSecret)
    ensures !IsTokenCreationAllowed(false, adminSecret, h)
  {
  }

  /**
   * A non-empty `x-admin-token` header is the one compared: a wrong one is refused even when
   * `x-admin-secret` holds the right secret.
   */
  lemma AdminTokenHeaderWins(secret: string, wrong: string)
    requires secret != "" && wrong != "" && wrong != secret
    ensures !IsTokenCreationAllowed(false, Some(secret),
      AdminHeaders(Some(wrong), Some(secret)))
    ensures IsTokenCreationAllowed(false, Some(secret), AdminHeaders(Some(""), Some(secret)))
  {
  }

  // ---- Webhook ----

  datatype Gate = Proceed | Rejected(code: int, error: string)

  /**
   * The webhook's admission: refused with 400 when no remote table is configured, with 403
   * when a sync secret is configured and the request's header differs from it.
   */
  function WebhookGate(tableConfigured: bool, syncSecret: Option<string>, provided: Option<string>): (g: Gate)
    ensures g.Proceed? <==> tableConfigured && (!Truthy(syncSecret) || provided == syncSecret)
    ensures g.Rejected? ==> g.code in {400, 403}
  {
    if !tableConfigured then Rejected(400, "DYNAMO_TABLE not configured")
    else if Truthy(syncSecret) && provided != syncSecret then Rejected(403, "invalid secret")
    else Proceed
  }

  // ---- Kiosk pairing ----

  /** A live socket connection; `kiosk` is set once it registers as a kiosk. */
  datatype Connection = Connection(id: string, kiosk: bool, clientId: Option<string>)

  /** `register`: a connection that announces the kiosk role becomes a kiosk. */
  function Register(c: Connection, role: Option<string>, clientId: Option<string>): (r: Connection)
    ensures r.id == c.id
    ensures role == Some("kiosk") ==> r.kiosk && r.clientId == KeepTruthy(clientId)
    ensures role != Some("kiosk") ==> r == c
  {
    if role == Some("kiosk") then c.(kiosk := true, clientId := KeepTruthy(clientId)) else c
  }

  datatype PairingResult = Forwarded(kiosk: nat, requestId: string) | RequestFailed(error: string)

  function FirstKiosk(conns: seq<Connection>): int {
    FindIndex(conns, (c: Connection) => c.kiosk)
  }

  /**
   * `request_token`: forwarded to the first connection registered as a kiosk, under the
   * caller's request id or a fresh one; refused when no kiosk is connected.
   */
  function RequestToken(conns: seq<Connection>, requestId: Option<string>, freshId: string): (r: PairingResult)
    ensures r.Forwarded? ==>
      (&& r.kiosk < |conns| && conns[r.kiosk].kiosk
       && (forall k | 0 <= k < r.kiosk :: !conns[k].kiosk)
       && r.requestId == (if Truthy(requestId) then requestId.value else freshId))
    ensures r.RequestFailed? <==> forall k | 0 <= k < |conns| :: !conns[k].kiosk
    ensures r.RequestFailed? ==> r.error == "no_kiosk_connected"
  {
    var k := FirstKiosk(conns);
    if k == -1 then RequestFailed("no_kiosk_connected")
    else Forwarded(k, if Truthy(requestId) then requestId.value else freshId)
  }

  /** At most one kiosk receives a request, and it is the same whatever kiosks follow it. */
  lemma PairingIgnoresLaterKiosks(conns: seq<Connection>, later: seq<Connection>, requestId: Option<string>, freshId: string)
    requires RequestToken(conns, requestId, freshId).Forwarded?
    ensures RequestToken(conns + later, requestId, freshId) == RequestToken(conns, requestId, freshId)
  {
    var r := RequestToken(conns, requestId, freshId);
    var r' := RequestToken(conns + later, requestId, freshId);
    assert (conns + later)[r.kiosk] == conns[r.kiosk];
    assert forall k | 0 <= k < r.kiosk :: (conns + later)[k] == conns[k];
  }
}
