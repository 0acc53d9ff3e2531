/** The key under which the jar files the cookies of a host. */
module HostKeys {
  import opened Text

  /** `buildCookieHostKey`: the last two labels, or the host itself if it has one label only. */
  function HostKey(host: string): string {
    var labels := Split(host, '.');
    var n := |labels|;
    if n >= 2 then labels[n - 2] + "." + labels[n - 1] else host
  }

  function LastLabels(host: string): seq<string> {
    var labels := Split(host, '.');
    if |labels| >= 2 then labels[|labels| - 2..] else labels
  }

  lemma KeyLabels(host: string)
    ensures HostKey(host) == Join(LastLabels(host), '.')
    ensures Split(HostKey(host), '.') == LastLabels(host)
  {
    var labels, last := Split(host, '.'), LastLabels(host);
    forall p | p in last ensures '.' !in p {
      var k :| 0 <= k < |labels| && labels[k] == p;
      SplitParts(host, '.', k);
    }
    JoinSplit(host, '.');
    SplitJoin(last, '.');
    if |labels| >= 2 {
      assert last[1..] == [last[1]];
    }
  }

  /** The key of a key is the key. */
  lemma KeyIdempotent(host: string)
    ensures HostKey(HostKey(host)) == HostKey(host)
  {
    KeyLabels(host);
    KeyLabels(HostKey(host));
  }

  /** A host with a dot has the key of each of its sub-hosts. */
  lemma SubHostSameKey(labels: string, host: string)
    requires '.' in host
    ensures HostKey(labels + "." + host) == HostKey(host)
  {
    SplitAt(labels, '.', host);
    DotSplits(host);
  }

  lemma {:induction false} DotSplits(host: string)
    ensures '.' in host <==> |Split(host, '.')| >= 2
  {
    if host != "" {
      DotSplits(host[1..]);
      assert host == [host[0]] + host[1..];
    }
  }

  /** For a host of one label the prefix matters: only then. */
  lemma SubHostKey(labels: string, host: string)
    ensures HostKey(labels + "." + host) == HostKey(host) <==> '.' in host
  {
    if '.' in host {
      SubHostSameKey(labels, host);
    } else {
      SplitAt(labels, '.', host);
      SplitPlain(host, '.');
      var key := HostKey(labels + "." + host);
      assert |key| > |host|;
    }
  }

  /** Two hosts share a key exactly when their last two labels, or their single labels, agree. */
  lemma SameKeyIff(a: string, b: string)
    ensures HostKey(a) == HostKey(b) <==> LastLabels(a) == LastLabels(b)
  {
    KeyLabels(a);
    KeyLabels(b);
  }

  /** In plain terms: of a host with a dot only the last two labels count, and a single label is its
      own key. */
  lemma KeyOfLabels(front: string, a: string, b: string)
    requires '.' !in a && '.' !in b
    ensures HostKey(a) == a
    ensures HostKey(a + "." + b) == a + "." + b
    ensures HostKey(front + "." + (a + "." + b)) == a + "." + b
  {
    SplitPlain(a, '.');
    SplitPlain(b, '.');
    SplitAt(a, '.', b);
    SubHostSameKey(front, a + "." + b);
  }
}
