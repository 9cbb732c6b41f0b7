/**
  How the client turns its `--addr` value into the address it dials
  (client.go:15-57): an address written `txt://<domain>` names a domain whose
  first TXT record holds the real `ip:port`; any other address is used as it
  is. The DNS lookup is an input: `dns` gives the answer for each name asked.
 */
module Client {
  import opened Errors
  import Strings
  import Labels

  const TxtScheme: string := "txt://"

  /** What `net.LookupTXT` returns for one name. */
  datatype DnsAnswer = LookupFailed(err: Error) | Records(txt: seq<string>)

  /** The domain with any `:port` suffix cut off: `strings.Split(domain, ":")[0]`
      (client.go:18-19). It is the longest prefix of `domain` free of `:`. */
  function CleanDomain(domain: string): (clean: string)
    ensures ':' !in clean
    ensures Strings.HasPrefix(domain, clean)
    ensures |clean| < |domain| ==> domain[|clean|] == ':'
  {
    Strings.Split(domain, ':')[0]
  }

  /** The message of the error for a domain without TXT records (client.go:27). */
  function NoRecordsMessage(clean: string): (msg: string)
    ensures |clean| < |msg| && msg[|msg| - |clean|..] == clean
  {
    "no TXT records found for domain: " + clean
  }

  /** `resolveTxtRecord(ctx, domain)` (client.go:16-32). */
  function ResolveTxtRecord(domain: string, dns: string -> DnsAnswer): (r: Result<string>)
    ensures r.Ok? <==> dns(CleanDomain(domain)).Records? && |dns(CleanDomain(domain)).txt| > 0
    ensures r.Ok? ==> r.value == dns(CleanDomain(domain)).txt[0]
    ensures dns(CleanDomain(domain)).LookupFailed? ==> r == Err(dns(CleanDomain(domain)).err)
    ensures dns(CleanDomain(domain)) == Records([]) ==>
              r == Err(Failure(NoRecordsMessage(CleanDomain(domain))))
  {
    var clean := CleanDomain(domain);
    match dns(clean)
    case LookupFailed(e) => Err(e)
    case Records(txt) =>
      if |txt| == 0 then Err(Failure(NoRecordsMessage(clean)))
      else Ok(txt[0])
  }

  /** The address the client goes on to resolve and dial (client.go:42-57),
      or the error `client` returns, reported under the `client` label nested
      in the caller's context. */
  function DialAddress(ctx: Labels.Context, addr: string, dns: string -> DnsAnswer): (r: Result<string>)
    ensures !Strings.HasPrefix(addr, TxtScheme) ==> r == Ok(addr)
    ensures Strings.HasPrefix(addr, TxtScheme) ==>
              var res := ResolveTxtRecord(addr[|TxtScheme|..], dns);
              && (res.Ok? ==> r == res)
              && (res.Err? ==> r.Err? && r.error.Wrapped? && r.error.inner == res.error)
  {
    if Strings.HasPrefix(addr, TxtScheme) then
      var domain := Strings.TrimPrefix(addr, TxtScheme);
      match ResolveTxtRecord(domain, dns)
      case Ok(result) => Ok(result)
      case Err(e) => Err(Labels.Er(Labels.WithLabel(ctx, "client"), e))
    else Ok(addr)
  }

  /** `txt://` followed by a domain is looked up under exactly that domain
      without its port, and yields its first TXT record unchanged. */
  lemma TxtAddressUsesFirstRecord(ctx: Labels.Context, domain: string, dns: string -> DnsAnswer)
    requires dns(CleanDomain(domain)).Records? && |dns(CleanDomain(domain)).txt| > 0
    ensures DialAddress(ctx, TxtScheme + domain, dns) == Ok(dns(CleanDomain(domain)).txt[0])
  {
    Strings.TrimPrefixOfConcat(TxtScheme, domain);
  }

  /** A failed lookup or an empty record list stops the client with an error
      that unwraps to the resolver's error, and no address is produced. The
      empty-list error names the domain that was looked up. */
  lemma TxtAddressFailure(ctx: Labels.Context, domain: string, dns: string -> DnsAnswer)
    requires dns(CleanDomain(domain)).LookupFailed? || dns(CleanDomain(domain)) == Records([])
    ensures var r := DialAddress(ctx, TxtScheme + domain, dns);
            && r.Err?
            && r.error == Wrapped(Labels.Label(Labels.WithLabel(ctx, "client")), r.error.inner)
            && (dns(CleanDomain(domain)).LookupFailed? ==> r.error.inner == dns(CleanDomain(domain)).err)
            && (dns(CleanDomain(domain)).Records? ==>
                  r.error.inner == Failure(NoRecordsMessage(CleanDomain(domain))))
  {
    Strings.TrimPrefixOfConcat(TxtScheme, domain);
  }

  /** The domain that is looked up is determined by the colon rule alone: any
      `:`-free prefix of the address that ends where the address ends or at a
      `:` is the cleaned domain. */
  lemma CleanDomainIsUnique(domain: string, c: string)
    requires Strings.HasPrefix(domain, c) && ':' !in c
    requires |c| == |domain| || domain[|c|] == ':'
    ensures c == CleanDomain(domain)
  {
    var d := CleanDomain(domain);
    assert |c| == |d| by {
      if |c| < |d| {
        assert false;
      } else if |d| < |c| {
        assert false;
      }
    }
    assert c == domain[..|c|];
  }
}
