/** Resolving the HMAC secrets of a connection. */
module Hmac {
  import opened Options
  import opened Protocol

  /** The data of a Secret object. */
  type Secret = map<string, string>

  datatype Resolution = Resolved(secrets: map<string, seq<string>>) | Unresolved(ref: SecretRef)

  /** The "secret" entry of a Secret; a missing entry reads as empty. */
  function SecretValue(s: Secret): string {
    if "secret" in s then s["secret"] else ""
  }

  ghost predicate AllResolve(lookup: SecretRef -> Option<Secret>, refs: seq<SecretRef>) {
    forall i :: 0 <= i < |refs| ==> lookup(refs[i]).Some?
  }

  /** The "secret" entries of the Secrets referred to, in order. */
  ghost function Values(lookup: SecretRef -> Option<Secret>, refs: seq<SecretRef>): seq<string>
    requires AllResolve(lookup, refs)
  {
    seq(|refs|, i requires 0 <= i < |refs| =>
      if "secret" in lookup(refs[i]).value then lookup(refs[i]).value["secret"] else "")
  }

  ghost predicate Names(hmac: map<string, seq<SecretRef>>, ref: SecretRef) {
    exists k :: k in hmac && ref in hmac[k]
  }

  /** All or nothing, whatever the order in which the map is walked: every
      algorithm with a nonempty list maps to the values of its references, in
      the order of the list, or some reference that does not resolve is named. */
  method RetrieveHMACSecrets(hmac: map<string, seq<SecretRef>>, lookup: SecretRef -> Option<Secret>)
    returns (r: Resolution)
    ensures r.Resolved? <==> forall k :: k in hmac ==> AllResolve(lookup, hmac[k])
    ensures r.Resolved? ==>
      && (forall k :: k in r.secrets <==> k in hmac && hmac[k] != [])
      && (forall k :: k in r.secrets ==> r.secrets[k] == Values(lookup, hmac[k]))
    ensures r.Unresolved? ==> Names(hmac, r.ref) && lookup(r.ref).None?
  {
    var secrets: map<string, seq<string>> := map[];
    var remaining := hmac.Keys;
    while remaining != {}
      invariant remaining <= hmac.Keys
      invariant forall k :: k in hmac.Keys - remaining ==> AllResolve(lookup, hmac[k])
      invariant forall k :: k in secrets <==> k in hmac.Keys - remaining && hmac[k] != []
      invariant forall k :: k in secrets ==> secrets[k] == Values(lookup, hmac[k])
    {
      var k :| k in remaining;
      var refs := hmac[k];
      ghost var before := secrets;
      for i := 0 to |refs|
        invariant AllResolve(lookup, refs[..i])
        invariant secrets == if i == 0 then before else before[k := Values(lookup, refs[..i])]
      {
        var secret := lookup(refs[i]);
        if secret.None? {
          assert refs[i] in hmac[k];
          return Unresolved(refs[i]);
        }
        var appended := (if k in secrets then secrets[k] else []) + [SecretValue(secret.value)];
        secrets := secrets[k := appended];
        assert AllResolve(lookup, refs[..i + 1]) && appended == Values(lookup, refs[..i + 1]);
      }
      assert refs[..|refs|] == refs;
      remaining := remaining - {k};
    }
    return Resolved(secrets);
  }
}
