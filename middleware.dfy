/**
 * `OrgAccessMiddleware` (poker/middleware.py): every request passes unless
 * it is not exempt, the session is not signed in, and it is not for the
 * login page itself, in which case it is sent to the login page with the
 * requested path as `next`. URL resolution is an input.
 */
module OrgAccessGate {
  import opened Wrappers
  import opened Strings
  import opened Seqs
  import opened Sessions

  /** What `resolve(path)` gave: no route (`Resolver404`), or the matched route's names. */
  datatype Resolution = NoMatch | Match(appName: string, namespace: string, urlName: string)

  datatype GateDecision = PassThrough | RedirectToLogin(next: string)

  const DefaultStaticUrl := "/static/"
  const DefaultMediaUrl := "/media/"

  /** `namespace:url_name`, or the bare url name outside a namespace. */
  function FullName(namespace: string, urlName: string): string {
    if namespace != "" then namespace + ":" + urlName else urlName
  }

  /** The exemption rule, on the middleware's two settings. */
  predicate Exempt(prefixes: seq<string>, names: set<string>, path: string, res: Resolution) {
    || (exists i :: 0 <= i < |prefixes| && prefixes[i] != "" && StartsWith(path, prefixes[i]))
    || (res.Match? && (res.appName == "admin" || res.urlName in names || FullName(res.namespace, res.urlName) in names))
  }

  class OrgAccessMiddleware {
    var exemptNames: set<string>
    var exemptPrefixes: seq<string>

    /**
     * `__init__`: the configured exempt names plus the login and logout
     * routes, and the static and media URL prefixes that are set (an unset
     * setting takes Django's default, an empty one is dropped).
     */
    constructor (configuredNames: seq<string>, staticUrl: Option<string>, mediaUrl: Option<string>)
      ensures exemptNames == (set n | n in configuredNames) + {"org_login", "org_logout"}
      ensures exemptPrefixes == Filter([staticUrl.GetOr(DefaultStaticUrl), mediaUrl.GetOr(DefaultMediaUrl)], (p: string) => p != "")
      ensures forall i :: 0 <= i < |exemptPrefixes| ==> exemptPrefixes[i] != ""
    {
      exemptNames := set n | n in configuredNames;
      exemptPrefixes := Filter([staticUrl.GetOr(DefaultStaticUrl), mediaUrl.GetOr(DefaultMediaUrl)], (p: string) => p != "");
      exemptNames := exemptNames + {"org_login", "org_logout"};
    }

    /** `_is_exempt_path`: a prefix match first, then the resolved route. */
    method IsExemptPath(path: string, res: Resolution) returns (exempt: bool)
      ensures exempt == Exempt(exemptPrefixes, exemptNames, path, res)
      ensures res.Match? && res.appName == "admin" ==> exempt
    {
      var i := 0;
      while i < |exemptPrefixes|
        invariant 0 <= i <= |exemptPrefixes|
        invariant forall j :: 0 <= j < i ==> !(exemptPrefixes[j] != "" && StartsWith(path, exemptPrefixes[j]))
      {
        var prefix := exemptPrefixes[i];
        if prefix != "" && StartsWith(path, prefix) {
          return true;
        }
        i := i + 1;
      }
      if res.NoMatch? {
        return false;
      }
      if res.appName == "admin" {
        return true;
      }
      return res.urlName in exemptNames || FullName(res.namespace, res.urlName) in exemptNames;
    }

    /** `__call__`; `session` is the request's session and `loginUrl` is `reverse("poker:org_login")`. */
    method Call(path: string, fullPath: string, res: Resolution, session: map<string, SessionValue>, loginUrl: string)
      returns (d: GateDecision)
      ensures d == PassThrough <==> Exempt(exemptPrefixes, exemptNames, path, res) || SignedIn(session) || path == loginUrl
      ensures d.RedirectToLogin? ==> d.next == fullPath
    {
      var exempt := IsExemptPath(path, res);
      if exempt {
        return PassThrough;
      }
      if OrgEmailKey in session && session[OrgEmailKey].Text? && session[OrgEmailKey].text != "" {
        return PassThrough;
      }
      if path == loginUrl {
        return PassThrough;
      }
      return RedirectToLogin(fullPath);
    }
  }

  /** Under any configuration the login and logout routes are exempt, namespaced or not. */
  lemma LoginRoutesAlwaysExempt(configuredNames: seq<string>, prefixes: seq<string>, path: string, namespace: string, urlName: string)
    requires urlName in {"org_login", "org_logout"}
    ensures Exempt(prefixes, (set n | n in configuredNames) + {"org_login", "org_logout"}, path, Match("poker", namespace, urlName))
  {
  }

  /**
   * With the `getattr` fallbacks /static/ and /media/ (neither setting
   * defined), anything under them is exempt before resolution is even
   * consulted.
   */
  lemma DefaultPrefixesExempt(names: set<string>, path: string, res: Resolution)
    requires StartsWith(path, DefaultStaticUrl) || StartsWith(path, DefaultMediaUrl)
    ensures Exempt(Filter([DefaultStaticUrl, DefaultMediaUrl], (p: string) => p != ""), names, path, res)
  {
    var ps := Filter([DefaultStaticUrl, DefaultMediaUrl], (p: string) => p != "");
    var p := if StartsWith(path, DefaultStaticUrl) then DefaultStaticUrl else DefaultMediaUrl;
    assert p in ps;
    var i :| 0 <= i < |ps| && ps[i] == p;
    assert ps[i] != "" && StartsWith(path, ps[i]);
  }
}
