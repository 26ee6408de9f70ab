/** The admin approval handler as a transition over the map of pending
    verifications: guards in the order admin secret, id present, id known;
    then `action=approve` or `action=reject` overwrites the entry's status,
    and any other action only shows the entry (with approve/reject links
    while it is still pending). */
module Approve {
  import opened Common
  import opened Web
  import opened Records

  datatype Status = Pending | Approved | Rejected

  datatype Verification = Verification(status: Status, userData: UserData)

  /** `global.pendingVerifications`. */
  type Store = map<string, Verification>

  datatype Request = Request(
    httpMethod: Method, id: Option<string>, secret: Option<string>, action: Option<string>,
    host: Option<string>)

  /** The request a query string makes: `id`, `secret` and `action` read
      from `req.query`. */
  function QueryRequest(httpMethod: Method, query: seq<Param>, host: Option<string>): Request
  {
    Request(httpMethod, Lookup(query, "id"), Lookup(query, "secret"), Lookup(query, "action"), host)
  }

  datatype Links = Links(approve: string, reject: string)

  datatype Page =
    | NoContent
    | AccessDenied
    | MissingId
    | UnknownId
    | Crashed
    | Decided(id: string, decision: Status)
    | Detail(id: string, entry: Verification, links: Option<Links>)

  datatype Reply = Reply(status: int, page: Page)

  /** The approve and reject links of the detail page. */
  function ActionUrl(host: string, id: string, secret: string, action: string): string {
    WithQuery(Origin(host) + "/api/approve", [Param("id", id), Param("secret", secret), Param("action", action)])
  }

  /** The status an action sets, if it is one of the two decisions. */
  function Decision(action: Option<string>): (d: Option<Status>)
    ensures d.Some? <==> action == Some("approve") || action == Some("reject")
    ensures d.Some? ==> d.value != Pending
  {
    if action == Some("approve") then Some(Approved)
    else if action == Some("reject") then Some(Rejected)
    else None
  }

  /** `verification.status = ...; pendingVerifications.set(id, verification)`. */
  function SetStatus(store: Store, id: string, s: Status): (store': Store)
    requires id in store
    ensures store'.Keys == store.Keys
    ensures store'[id] == Verification(s, store[id].userData)
    ensures forall k | k in store && k != id :: store'[k] == store[k]
  {
    store[id := store[id].(status := s)]
  }

  /** The handler: the reply and the store afterwards. A missing `Host`
      header makes `host.includes` throw before any action is applied. */
  function Handle(store: Store, req: Request, configured: Option<string>): (out: (Reply, Store))
    ensures req.httpMethod == Options ==> out == (Reply(OK, NoContent), store)
    ensures out.1 != store ==>
      req.httpMethod != Options && req.secret == Some(AdminSecret(configured)) && Truthy(req.id) &&
      req.id.value in store && req.host.Some? && Decision(req.action).Some?
  {
    var adminSecret := AdminSecret(configured);
    if req.httpMethod == Options then (Reply(OK, NoContent), store)
    else if req.secret != Some(adminSecret) then (Reply(FORBIDDEN, AccessDenied), store)
    else if !Truthy(req.id) then (Reply(BAD_REQUEST, MissingId), store)
    else
      var id := req.id.value;
      if id !in store then (Reply(NOT_FOUND, UnknownId), store)
      else
        var entry := store[id];
        match req.host
        case None => (Reply(SERVER_ERROR, Crashed), store)
        case Some(host) =>
          match Decision(req.action)
          case Some(s) => (Reply(OK, Decided(id, s)), SetStatus(store, id, s))
          case None =>
            var secret := req.secret.value;
            var links :=
              if entry.status == Pending
              then Some(Links(ActionUrl(host, id, secret, "approve"), ActionUrl(host, id, secret, "reject")))
              else None;
            (Reply(OK, Detail(id, entry, links)), store)
  }

  // ---- guards ---------------------------------------------------------

  /** A wrong or missing secret is refused first, even without an id. */
  lemma WrongSecretFirst(store: Store, req: Request, configured: Option<string>)
    requires req.httpMethod != Options && req.secret != Some(AdminSecret(configured))
    ensures Handle(store, req, configured) == (Reply(FORBIDDEN, AccessDenied), store)
  {
  }

  /** With the right secret: no id is 400, an unknown id is 404, and the
      store is untouched. */
  lemma IdGuards(store: Store, req: Request, configured: Option<string>)
    requires req.httpMethod != Options && req.secret == Some(AdminSecret(configured))
    ensures !Truthy(req.id) ==> Handle(store, req, configured) == (Reply(BAD_REQUEST, MissingId), store)
    ensures Truthy(req.id) && req.id.value !in store ==>
      Handle(store, req, configured) == (Reply(NOT_FOUND, UnknownId), store)
  {
  }

  /** An absent or empty secret in the query is always refused, since the
      admin secret is never empty; without a configured secret the built-in
      one gets past the guard. */
  lemma SecretGuard(store: Store, req: Request, configured: Option<string>)
    requires req.httpMethod != Options
    ensures !Truthy(req.secret) ==> Handle(store, req, configured) == (Reply(FORBIDDEN, AccessDenied), store)
    ensures !Truthy(configured) && req.secret == Some(DefaultAdminSecret) ==>
      Handle(store, req, configured).0.page != AccessDenied
  {
  }

  // ---- transitions ----------------------------------------------------

  /** An authorised decision on a known id sets that entry's status, keeps
      its user data, answers 200, and overwrites whatever status it had. */
  lemma DecisionSetsStatus(store: Store, req: Request, configured: Option<string>)
    requires req.httpMethod != Options && req.secret == Some(AdminSecret(configured))
    requires Truthy(req.id) && req.id.value in store && req.host.Some?
    requires req.action == Some("approve") || req.action == Some("reject")
    ensures var id := req.id.value;
      var s := if req.action == Some("approve") then Approved else Rejected;
      Handle(store, req, configured) ==
        (Reply(OK, Decided(id, s)), store[id := Verification(s, store[id].userData)])
  {
    var id := req.id.value;
    var s := Decision(req.action).value;
    assert SetStatus(store, id, s) == store[id := Verification(s, store[id].userData)];
  }

  /** Whatever the request, only the addressed entry's status can change:
      the ids stay the same, every other entry is untouched, and no user
      data changes. */
  lemma OnlyAddressedStatusChanges(store: Store, req: Request, configured: Option<string>)
    ensures var store' := Handle(store, req, configured).1;
      store'.Keys == store.Keys &&
      (forall k | k in store && Some(k) != req.id :: store'[k] == store[k]) &&
      (forall k | k in store :: store'[k].userData == store[k].userData)
  {
  }

  /** Repeating a request changes nothing more. */
  lemma Idempotent(store: Store, req: Request, configured: Option<string>)
    ensures var once := Handle(store, req, configured).1;
      Handle(once, req, configured).1 == once
  {
    var once := Handle(store, req, configured).1;
    if once != store {
      var id := req.id.value;
      var s := Decision(req.action).value;
      assert once == SetStatus(store, id, s);
      assert SetStatus(once, id, s) == once;
    }
  }

  /** Any other action only shows the entry, and the approve/reject links
      appear exactly while it is pending; they repeat the admin's secret. */
  lemma ViewShowsLinksWhilePending(store: Store, req: Request, configured: Option<string>)
    requires req.httpMethod != Options && req.secret == Some(AdminSecret(configured))
    requires Truthy(req.id) && req.id.value in store && req.host.Some?
    requires req.action != Some("approve") && req.action != Some("reject")
    ensures var (reply, store') := Handle(store, req, configured);
      var id := req.id.value;
      store' == store && reply.status == OK && reply.page.Detail? &&
      reply.page.entry == store[id] &&
      (reply.page.links.Some? <==> store[id].status == Pending) &&
      (reply.page.links.Some? ==>
        reply.page.links.value.approve == ActionUrl(req.host.value, id, AdminSecret(configured), "approve") &&
        reply.page.links.value.reject == ActionUrl(req.host.value, id, AdminSecret(configured), "reject"))
  {
  }
}
