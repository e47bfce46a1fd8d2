/** What presented evidence says about the requester: the development verifier
    takes the payload for the subject, the Kubernetes verifier reviews a token
    for the subject, its pod and its node. */
module Workloads {
  import opened Results
  import Text

  datatype Error = Unauthenticated | InvalidEvidence

  datatype Verifier =
    | Development
    | Kubernetes(audience: string, namespace: string, serviceAccount: string, requirePodBinding: bool, hasLookup: bool)

  /** A reviewed token; `account` is the namespace and name in its user name,
      when that names a service account. */
  datatype Status = Status(
    authenticated: bool, error: string, audiences: seq<string>, account: Option<(string, string)>,
    podName: string, podUid: string, nodeName: string, nodeUid: string)

  datatype Lookup = Failed | Pod(uid: string, nodeName: string)

  /** A payload, the review of the token in it, and the lookup of its pod. */
  datatype Presented = Presented(payload: string, status: Status, lookup: Lookup)

  datatype Claims = Claims(
    subject: string, namespace: string, podName: string, podUid: string, nodeName: string, nodeUid: string)

  predicate Allows(expected: string, actual: string) {
    Text.TrimSpace(expected) == "" || actual == Text.TrimSpace(expected)
  }

  function ClaimsFromStatus(v: Verifier, s: Status): Result<Claims, Error>
    requires v.Kubernetes?
  {
    if !s.authenticated || s.error != "" then Err(Unauthenticated)
    else if Text.TrimSpace(v.audience) != "" && Text.TrimSpace(v.audience) !in s.audiences then Err(InvalidEvidence)
    else if s.account.None? || s.account.value.0 == "" || s.account.value.1 == "" then Err(InvalidEvidence)
    else if !Allows(v.namespace, s.account.value.0) || !Allows(v.serviceAccount, s.account.value.1) then
      Err(InvalidEvidence)
    else if v.requirePodBinding && (s.podName == "" || s.podUid == "") then Err(InvalidEvidence)
    else if v.requirePodBinding && !v.hasLookup && s.nodeName == "" then Err(InvalidEvidence)
    else
      var (namespace, name) := s.account.value;
      Ok(Claims(namespace + "." + name, namespace, s.podName, s.podUid, s.nodeName, s.nodeUid))
  }

  function VerifyPodBinding(v: Verifier, c: Claims, lookup: Lookup): Result<Claims, Error>
    requires v.Kubernetes?
  {
    if !v.hasLookup then Ok(c)
    else if c.podName == "" || c.podUid == "" then Err(InvalidEvidence)
    else
      match lookup
      case Failed => Err(InvalidEvidence)
      case Pod(uid, nodeName) =>
        if uid == "" || uid != c.podUid || nodeName == "" then Err(InvalidEvidence)
        else if c.nodeName != "" && c.nodeName != nodeName then Err(InvalidEvidence)
        else Ok(c.(nodeName := nodeName))
  }

  function Verify(v: Verifier, p: Presented): Result<Claims, Error> {
    match v
    case Development => Ok(Claims(Text.TrimSpace(p.payload), "", "", "", "", ""))
    case Kubernetes(_, _, _, _, _) =>
      match ClaimsFromStatus(v, p.status)
      case Err(error) => Err(error)
      case Ok(c) => VerifyPodBinding(v, c, p.lookup)
  }

  predicate PodBound(v: Verifier) {
    v.Kubernetes? && v.requirePodBinding
  }

  /** With pod binding required or a lookup configured, a verified workload runs
      on a named node; the lookup's pod, where there is one, is the token's own
      and decides the node. */
  lemma VerifiedWorkload(v: Verifier, p: Presented)
    requires v.Kubernetes? && Verify(v, p).Ok?
    ensures Verify(v, p).value.subject != ""
    ensures PodBound(v) || v.hasLookup ==> Verify(v, p).value.nodeName != "" && Verify(v, p).value.podUid != ""
    ensures v.hasLookup ==> p.lookup == Pod(p.status.podUid, Verify(v, p).value.nodeName)
    ensures p.status.nodeName != "" ==> Verify(v, p).value.nodeName == p.status.nodeName
  {
    hide Text.TrimSpace;
  }

  /** The development verifier takes any payload, and claims nothing but its
      subject. */
  lemma DevelopmentClaims(p: Presented)
    ensures Verify(Development, p) == Ok(Claims(Text.TrimSpace(p.payload), "", "", "", "", ""))
  {
  }

  /** A setting that is blank leaves the value open. */
  predicate Open(setting: string) {
    Text.TrimSpace(setting) == ""
  }

  /** The reviewed token itself: authenticated without an error, for the
      configured audience and service account, and bound to a pod on a node where
      that is demanded and no lookup will tell. */
  predicate TokenStands(v: Verifier, s: Status)
    requires v.Kubernetes?
  {
    && s.authenticated && s.error == "" && (Open(v.audience) || Text.TrimSpace(v.audience) in s.audiences)
    && s.account.Some? && s.account.value.0 != "" && s.account.value.1 != ""
    && (Open(v.namespace) || s.account.value.0 == Text.TrimSpace(v.namespace))
    && (Open(v.serviceAccount) || s.account.value.1 == Text.TrimSpace(v.serviceAccount))
    && (v.requirePodBinding ==> s.podName != "" && s.podUid != "" && (v.hasLookup || s.nodeName != ""))
  }

  /** The pod found under the token's name is the token's pod, and on its node. */
  predicate PodStands(v: Verifier, p: Presented)
    requires v.Kubernetes?
  {
    v.hasLookup ==>
      && p.status.podName != "" && p.status.podUid != ""
      && p.lookup.Pod? && p.lookup.uid == p.status.podUid && p.lookup.nodeName != ""
      && (p.status.nodeName == "" || p.status.nodeName == p.lookup.nodeName)
  }

  /** The Kubernetes verifier accepts exactly the tokens that stand with the pods
      that stand, and claims what they say. A token that is not authenticated is
      told apart from every other refusal. */
  lemma VerifiedIff(v: Verifier, p: Presented)
    requires v.Kubernetes?
    ensures Verify(v, p).Ok? <==> TokenStands(v, p.status) && PodStands(v, p)
    ensures Verify(v, p) == Err(Unauthenticated) <==> !p.status.authenticated || p.status.error != ""
    ensures forall c | Verify(v, p) == Ok(c) ::
              && c.subject == p.status.account.value.0 + "." + p.status.account.value.1
              && c.namespace == p.status.account.value.0
              && c.podName == p.status.podName && c.podUid == p.status.podUid && c.nodeUid == p.status.nodeUid
              && c.nodeName == if v.hasLookup then p.lookup.nodeName else p.status.nodeName
  {
    hide Text.TrimSpace;
  }
}
