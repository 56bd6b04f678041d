/**
  The route handler that `enableAdBlocker` installs: every request is
  either continued or aborted, from its URL and its resource type.
 */
module ResourceBlocker {
  import opened Text

  /** Advertising, tracking, maps and web-font hosts. */
  const BlockedResources: seq<string> := [
    "google-analytics.com",
    "googletagmanager.com",
    "facebook.net",
    "doubleclick.net",
    "amazon-adsystem.com",
    "adnxs.com",
    "maps.googleapis.com",
    "fonts.googleapis.com",
    "fonts.gstatic.com"
  ]

  const BlockedTypes: seq<string> := ["image", "media", "font", "stylesheet"]

  datatype Decision = Continue | Abort

  /** `blockedResources.some(domain => url.includes(domain))` */
  predicate AnyBlockedDomain(url: string) {
    exists k :: 0 <= k < |BlockedResources| && Contains(url, BlockedResources[k])
  }

  /**
    The handler, on the request's URL as given and its resource type. The
    URL is lower-cased first. A request is aborted exactly when a listed
    host occurs in the URL, or when its type is `image`, `media` or `font`;
    a stylesheet from an unlisted host goes through.
   */
  function Decide(rawUrl: string, resourceType: string): (d: Decision)
    ensures d == Abort <==> AnyBlockedDomain(Lower(rawUrl)) || resourceType in ["image", "media", "font"]
  {
    var url := Lower(rawUrl);
    if AnyBlockedDomain(url) || resourceType in BlockedTypes then
      if resourceType == "stylesheet" && !AnyBlockedDomain(url) then Continue
      else Abort
    else Continue
  }

  /** A request whose URL holds a listed host, in any letter case, is aborted whatever its type. */
  lemma BlockedHostAborts(rawUrl: string, resourceType: string, k: nat)
    requires k < |BlockedResources|
    requires Contains(Lower(rawUrl), BlockedResources[k]) || Contains(rawUrl, BlockedResources[k])
    ensures Decide(rawUrl, resourceType) == Abort
  {
    if Contains(rawUrl, BlockedResources[k]) {
      HostsLowerCase(k);
      ContainsLower(rawUrl, BlockedResources[k]);
    }
  }

  /** The listed hosts are written in lower case. */
  lemma HostsLowerCase(k: nat)
    requires k < |BlockedResources|
    ensures Lower(BlockedResources[k]) == BlockedResources[k]
  {
    var h := BlockedResources[k];
    forall i | 0 <= i < |h| ensures LowerChar(h[i]) == h[i] {
      assert !IsAsciiUpper(h[i]);
    }
  }

  /** Images, media and fonts never load. */
  lemma HeavyTypesAbort(rawUrl: string, resourceType: string)
    requires resourceType == "image" || resourceType == "media" || resourceType == "font"
    ensures Decide(rawUrl, resourceType) == Abort
  {
  }

  /** A stylesheet is kept unless its URL holds a listed host. */
  lemma StylesheetKept(rawUrl: string)
    ensures Decide(rawUrl, "stylesheet") == Continue <==> !AnyBlockedDomain(Lower(rawUrl))
  {
  }

  /** Any other type from an unlisted host, a document or a script say, goes through. */
  lemma OtherTypesContinue(rawUrl: string, resourceType: string)
    requires resourceType !in BlockedTypes
    requires !AnyBlockedDomain(Lower(rawUrl))
    ensures Decide(rawUrl, resourceType) == Continue
  {
  }

  /** The decision does not depend on the letter case of the URL. */
  lemma CaseInsensitive(rawUrl: string, resourceType: string)
    ensures Decide(Lower(rawUrl), resourceType) == Decide(rawUrl, resourceType)
    ensures Decide(Upper(rawUrl), resourceType) == Decide(rawUrl, resourceType)
  {
    LowerIdempotent(rawUrl);
    assert Lower(Upper(rawUrl)) == Lower(rawUrl) by {
      forall i | 0 <= i < |rawUrl| ensures LowerChar(UpperChar(rawUrl[i])) == LowerChar(rawUrl[i]) {
        var c := rawUrl[i];
        if IsAsciiLower(c) {
          assert IsAsciiUpper(UpperChar(c));
        }
      }
    }
  }
}
