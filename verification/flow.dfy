/** How the handlers' links meet the handlers that receive them. */
module Flow {
  import opened Common
  import opened Web
  import opened Records
  import VerifyRequest
  import Approve
  import Signature

  /** The approval link of the verification-request handler carries only
      `d` and `sig`, while the approval handler reads `id` and `secret`: with
      no `secret` in the query, opening the link is refused with 403 and the
      store is unchanged, whatever secret either handler is configured with. */
  lemma ApprovalLinkRefused(configured: Option<string>, req: VerifyRequest.Request, mac: Signature.Mac,
                            codec: Codec<VerificationData>, now: nat,
                            store: Approve.Store, approveConfigured: Option<string>, m: Method)
    requires VerifyRequest.Handle(configured, req, mac, codec, now).Created?
    requires m != Options
    ensures var v := VerifyRequest.BuildRecord(req.body.value, now);
      var d := EncodePayload(codec, v);
      var sig := VerifyRequest.SignData(mac, AdminSecret(configured), codec, v);
      var query := ParseQuery("d=" + d + "&sig=" + sig);
      query == [Param("d", d), Param("sig", sig)] &&
      Approve.Handle(store, Approve.QueryRequest(m, query, req.host), approveConfigured) ==
        (Approve.Reply(FORBIDDEN, Approve.AccessDenied), store)
  {
    var v := VerifyRequest.BuildRecord(req.body.value, now);
    var d := EncodePayload(codec, v);
    var sig := VerifyRequest.SignData(mac, AdminSecret(configured), codec, v);
    VerifyRequest.PlainTokens(d, sig);
    VerifyRequest.ApprovalQuery(d, sig);
    var query := [Param("d", d), Param("sig", sig)];
    assert Lookup(query, "secret") == None;
  }
}
