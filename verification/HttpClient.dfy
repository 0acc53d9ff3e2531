/** The client's proxy fields and the methods that overwrite and roll them back. */
module HttpClients {
  import opened Options
  import opened ProxySwitch

  /** `answers` below are what the dialer constructor returns when it is asked.  Without a custom
      factory it is not asked for the empty URL, which means a direct connection. */
  predicate Works(hasFactory: bool, url: string, answer: bool) {
    (url == "" && !hasFactory) || answer
  }

  class HttpClient {
    const hasFactory: bool          // config.proxyDialerFactory
    var proxyUrl: string            // config.proxyUrl
    var transport: Transport
    var built: nat                  // identities used for transports
    var locked: bool                // proxyLck

    /** The transport is the one built for the configured proxy. */
    predicate Valid()
      reads this
    {
      !locked && transport.url == proxyUrl
    }

    function Fields(): Client
      reads this
    {
      Client(proxyUrl, transport, built)
    }

    /** The part of `buildFromConfig` that chooses the dialer; no client without a dialer. */
    static method Build(hasFactory: bool, url: string, answer: bool) returns (client: HttpClient?)
      ensures client == null <==> (hasFactory || url != "") && !answer
      ensures client != null ==>
                fresh(client) && client.Valid() && client.proxyUrl == url && client.hasFactory == hasFactory
    {
      if url != "" && !hasFactory {
        if !answer {
          return null;
        }
      }
      if hasFactory {
        if !answer {
          return null;
        }
      }
      client := new HttpClient(hasFactory, url);
    }

    constructor (hasFactory: bool, url: string)
      ensures Valid() && proxyUrl == url && this.hasFactory == hasFactory
    {
      this.hasFactory := hasFactory;
      proxyUrl, transport, built, locked := url, Transport(0, url), 1, false;
    }

    method ApplyProxy(answer: bool) returns (failed: bool)
      modifies this`transport, this`built
      ensures Fields() == Apply(old(Fields()), Works(hasFactory, proxyUrl, answer))
      ensures failed <==> (hasFactory || proxyUrl != "") && !answer
      ensures if failed then transport == old(transport) else transport == Transport(old(built), proxyUrl)
    {
      if proxyUrl != "" && !hasFactory {
        if !answer {
          return true;
        }
      }
      if hasFactory {
        if !answer {
          return true;
        }
      }
      transport := Transport(built, proxyUrl);
      built := built + 1;
      failed := false;
    }

    method SetProxy(url: string, answer: bool, answer2: bool) returns (failed: bool)
      modifies this`proxyUrl, this`transport, this`built
      ensures (Fields(), failed) ==
              ProxySwitch.SetProxy(old(Fields()), url, Works(hasFactory, url, answer),
                                   Works(hasFactory, old(proxyUrl), answer2))
      ensures old(transport.url == proxyUrl) ==> transport.url == proxyUrl
      ensures var refused, backRefused :=
                (hasFactory || url != "") && !answer, (hasFactory || old(proxyUrl) != "") && !answer2;
              && failed == (refused && backRefused)
              && proxyUrl == (if refused then old(proxyUrl) else url)
              && if failed then transport == old(transport) else transport.url == proxyUrl
    {
      var currentProxy := proxyUrl;
      proxyUrl := url;
      failed := ApplyProxy(answer);
      if failed {
        proxyUrl := currentProxy;
        failed := ApplyProxy(answer2);
      }
    }

    /** `Do`, as far as proxies go: the request runs on the current transport. */
    method Do() returns (usedProxy: string)
      ensures usedProxy == transport.url
    {
      usedProxy := transport.url;
    }

    /** `DoWithProxy`: which proxy the request ran on, unless `SetProxy` failed. */
    method DoWithProxy(url: string, answers: Answers) returns (usedProxy: Option<string>)
      requires Valid()
      modifies this
      ensures Valid()
      ensures var current := old(proxyUrl);
              var a := Answers(Works(hasFactory, url, answers.to), Works(hasFactory, current, answers.toBack),
                               Works(hasFactory, current, answers.from),
                               Works(hasFactory, if Works(hasFactory, url, answers.to) then url else current,
                                     answers.fromBack));
              (Fields(), usedProxy) == ProxySwitch.DoWithProxy(old(Fields()), url, a)
      ensures var current := old(proxyUrl);
              var refused := (hasFactory || url != "") && !answers.to;
              && usedProxy == (if !refused then Some(url)
                               else if (hasFactory || current != "") && !answers.toBack then None
                               else Some(current))
              && proxyUrl == (if refused || !((hasFactory || current != "") && !answers.from) then current else url)
              && (usedProxy.None? ==> transport == old(transport))
    {
      locked := true;
      var currentProxy := proxyUrl;
      var failed := SetProxy(url, answers.to, answers.toBack);
      if failed {
        locked := false;
        return None;
      }
      var used := Do();
      failed := SetProxy(currentProxy, answers.from, answers.fromBack);
      locked := false;
      usedProxy := Some(used);
    }
  }
}
