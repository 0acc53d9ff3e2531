# Verified models of the HTTP client

This project models the stateful core of the client and proves what that core keeps over whole runs.
Two forms stand side by side wherever the program is concurrent:

* a **state machine** whose steps are the statements that touch shared state, with explicit lock
  owners, so that a run is any interleaving of any number of calls;
* a **class** with the source's fields and methods. In `RoundTripper`, `ConnectDialer` and `Tracker`
  each statement records the machine step it performs (`trace`, `sys`), and the invariant says that the
  whole history of the object is a run of the machine and its fields are those of the last state; so
  what is proved of all runs holds of these objects. `CookieJar` records its calls (`calls`) in the same
  way, for the sequences of `JarRuns`. `HttpClient` records nothing: its methods are proved equal to the
  functions of `ProxySwitch`, and `AloneDoesAsSpecified` ties the machine to those.

The main methods say what they do twice: through a function of the models, on which the theorems build, and case by
case without it (`DialDoes`, `TripDoes`, `JarTerms`, `Answers`, `NewDoes`), so that the function is held to the source
as well.

`dafny verify dfyconfig.toml` checks everything.

## Parts

| files | source | subject |
|---|---|---|
| `HandOff`, `Accounting`, `HandOffLimits`, `HandOffRaces`, `RoundTripper` | roundtripper.go | two maps, two mutexes, and the connection handed from the first dial to the transport |
| `Cookies`, `JarLaws`, `JarRuns`, `JarTerms`, `JarSkips`, `Slices`, `CookieJar`, `JarReaders`, `JarAtomicity`, `JarLosses`, `JarLookups`, `HostKeys`, `Text` | jar.go | the cookie jar as a map of maps; Go slices compacted in place and shared with callers; concurrent readers and lookups |
| `Numerals`, `Ja3`, `Ja3Objects`, `Ja3Factory` | ja3.go | the JA3 parser, its printer, and the identity of extension objects |
| `ProxySwitch`, `ProxyRaces`, `HttpClient` | client.go | proxy switching with rollback |
| `Tunnels`, `ConnectDialer` | connect.go | the CONNECT dialer and its cached HTTP/2 connection |
| `Bandwidth`, `Tracker` | bandwidth/ | 64-bit atomic counters under interleaving |

The network, TLS, the dialer constructor, the certificate pinner and the mapper tables are parameters
that may answer anything.

## What the models show about the code

* The panic in `getTransport` is unreachable as long as the transport cached under an address dials
  that address only, and that assumption is exact: one dial for an address without a transport can lead to
  the panic (`HandOffLimits.RedialPanicsIffUncached`).
* A connection that negotiated h3 is stashed but never taken out, since the HTTP/3 transport is built
  without a dial hook (`HandOffLimits.Http3StashIsNeverTaken`).
* `dialTLS` looks into `cachedTransports` without its mutex when a transport dials. Under the assumption
  about transports above, the only accesses that can collide in any reachable state are that look and a
  plain request caching its transport (`HandOffRaces.RaceIff`), and such a state is reachable
  (`HandOffRaces.RaceIsReachable`).
* `Cookies` compacts the stored array but not the stored length. A second read returns a name twice
  exactly when an expired slot preceded a live one, so `[expired A, B, C]` becomes `[B, C, C]`
  (`JarLaws.SecondReadDuplicates`). What survives is that equal names denote the same cookie.
* Reading is invisible in override mode. With `skipExisting` a whole sequence of calls ends as if nothing
  had been read if and only if no `SetCookies` in it brings a live cookie under a name that reads have
  forgotten by then (`JarSkips.SkipIgnoresReadsIff`).
* `Cookies` writes under the read lock. Interleaved calls on one host always act like calls made one
  after the other, in the lengths of the slices they return and in the array they leave, if and only if
  there is at most one of them or all live slots come first (`JarAtomicity.AtomicIff`). However they
  interleave, they return live cookies that were stored (`JarAtomicity.ReturnsLiveStoredCookies`).
* No interleaving of readers changes the stored array if and only
  if all live slots come first (`JarReaders.ReadersHarmlessIffPartitioned`). Readers can lose a live
  cookie if and only if it does not stand before the first expired slot and is not the last live one
  (`JarLosses.CanBeLostIff`); on a list of distinct names that is possible if and only if at least two
  live slots follow the first expired one (`JarLosses.LossIffTwoLiveAfterExpired`). A lookup by `Cookie`
  that interleaves with readers can return nil for exactly the same live cookies
  (`JarLookups.MissedIffLost`).
* `DoWithProxy` runs on the client's original proxy, without an error, when the new proxy is not
  usable; a plain `Do` runs on another proxy exactly while some `DoWithProxy` has it in place
  (`ProxySwitch.PlainSendsElsewhereIff`).
* `SetProxy` takes no lock. Interleaved calls can end, all without an error, with a transport built for
  another URL than the configured one. With arbitrary answers of the dialer constructor that cannot
  happen if and only if there is at most one call, or all set the URL that is configured anyway, or,
  without a factory, all set the empty URL (`ProxyRaces.SetCallsAgreeIff`). If the constructor never
  fails, it cannot happen if and only if all set the same URL (`ProxyRaces.AgreesIffSameTargets`).
* The lock of `DoWithProxy` protects such calls against one another (`ProxyRaces.LockProtects`), but not
  against a single `SetProxy`, unless no call changes the URL (`ProxyRaces.KindsAgreeIff`).
* One failed CONNECT on the cached HTTP/2 connection closes it under every tunnel already returned,
  and leaves it in the cache (`Tunnels.FailedReuseClosesTheTunnelsOfOthers`). With no call in progress
  no other open connection can ever be closed by the dialer (`Tunnels.CanBeClosedIffCached`).
* `newRoundTripper` panics without a dialer: the fallback to a direct dialer comes after the first one
  was taken from the empty list (`RoundTrippers.RoundTripper.Build`).
* An HTTP/1.1 CONNECT that follows a failed attempt on the cached connection still carries the pipe
  of that attempt as its body (`ConnectDialers.ConnectDialer.DialContext`).
* What `GetTotalBandwidth` returns is always the total at some moment of its run if and only if bytes are
  counted on at most one side between its two loads (`Bandwidth.AnswerIsATotalIff`). In any case it lies
  between the totals at its start and at its end (`Bandwidth.TotalIsBetween`).

## Model

| member | source | states |
|---|---|---|
| HandOff.InvStep | roundtripper.go:74-130 | each step of any thread keeps the invariant (stashed connections have a transport of the right kind, each lock has the owner its holder thinks, every thread's expectations hold) and adds at most one transport, under an address that had none |
| HandOff.NoPanic | roundtripper.go:91-117 | in every reachable state of every interleaving no thread has panicked, a transport about to be fetched is cached, a transport's own dial never saw the sentinel error, and each stashed connection has a transport of the kind it negotiated: HTTP/2 for `h2`, HTTP/3 for `h3`, HTTP/1 for anything else |
| HandOff.TransportsPersist | roundtripper.go:175-311 | a cached transport is never replaced or removed |
| HandOff.SomeThreadCanStep | roundtripper.go:60-94 | deadlock freedom: while some call is unfinished, some unfinished call can step |
| HandOff.LockDiscipline | roundtripper.go:77-122 | in every reachable state the bad-pin handler and the transport run with neither mutex held, `cachedTransportsLck` is only waited for by calls that hold nothing, and a request inside `dialTLS` still holds it |
| HandOff.RunsAreBounded | roundtripper.go:74-118 | the calls already begun take a bounded number of steps between them, in any order |
| HandOff.AllCallsCanFinish | roundtripper.go:60-122 | from every reachable state all begun calls can be brought to an end, and then both mutexes are free |
| HandOff.OwnersAreBusy | roundtripper.go:77-92 | whoever holds a mutex is an unfinished call: every exit has released what it held |
| Accounting.AtStep | roundtripper.go:124-173 | one step moves the connection it names to its new place and no other connection |
| Accounting.AccountedStep | roundtripper.go:120-173 | every step keeps each dialed connection at exactly one place that fits the address it was dialed for |
| Accounting.EveryConnectionAtOnePlace | roundtripper.go:124-177 | conservation over every run: each dialed connection is in flight, broken, rejected, stashed under its own address or handed to one caller that asked for that address, and never at two places; no caller is given two |
| Accounting.FatesAreFinal | roundtripper.go:163-173 | a connection that failed handshake or pin check, or was handed out, stays so |
| Accounting.FailedNeverServed | roundtripper.go:163-173 | what failed handshake or pin check is neither stashed nor handed out, then or later |
| HandOffLimits.RedialPanicsIffUncached | roundtripper.go:107-112 | with free mutexes, one dial by a transport can lead to the panic, with no further such dial, if and only if its address has no cached transport |
| HandOffLimits.Http3StashIsNeverTaken | roundtripper.go:281-316 | a stashed h3 connection stays stashed whatever happens later |
| HandOffRaces.RaceIff | roundtripper.go:98-177 | as long as transports dial only the address they are cached under, in every reachable state two accesses of `cachedTransports`, one of them a store, can collide if and only if they are a plain request caching its transport and a transport's dial looking for one |
| HandOffRaces.RaceIsReachable | roundtripper.go:98-177 | for any two addresses a lawful run leads to such a state |
| RoundTrippers.NetResult | roundtripper.go:140-173 | a connection comes out of dialing exactly when dial, handshake and pin check all succeed, and never as the sentinel error |
| RoundTrippers.FirstRequestThenDial | roundtripper.go:124-130 | hand-off round trip: after the first https request the transport is of the kind the connection negotiated, and its next dial gets that very connection and leaves the stash as it was before |
| RoundTrippers.SchemeSpelled | roundtripper.go:98-104 | a scheme counts as http or https exactly when it is spelled so, each letter in either case |
| RoundTrippers.RoundTripper.Build | roundtripper.go:373-418 | an error if the pinner cannot be built, a panic without a dialer, and else a new valid object |
| RoundTrippers.RoundTripper.constructor | roundtripper.go:387-409 | a new object has empty maps, free mutexes and the empty history |
| RoundTrippers.RoundTripper.DialTLS | roundtripper.go:120-319 | both maps and the result after an undisturbed dial, case by case: a stashed connection is taken out; each failing step gives its own error and changes nothing; for an address without a transport, "h2" caches an HTTP/2 transport, "h3" an HTTP/3 one and any other text an HTTP/1 one, and the connection is stashed; the mutex is free again |
| RoundTrippers.RoundTripper.GetTransport | roundtripper.go:97-118 | the maps and the error for each scheme; the branch that panics is unreachable |
| RoundTrippers.RoundTripper.RoundTrip | roundtripper.go:74-95 | the maps and the outcome, case by case: a cached transport is used; "http", in any letter case, caches an HTTP/1 transport; "https" the one for the negotiated text, or gives the error of the step that failed; any other scheme is refused; the bad-pin handler runs exactly for a bad pin, with both mutexes free |
| RoundTrippers.RoundTripper.TransportDial | roundtripper.go:360-362 | a transport's dial takes the stashed connection or gets the network's answer, and caches nothing |
| RoundTrippers.RoundTripper.CloseIdleConnections | roundtripper.go:59-72 | exactly the cached transports that can close idle connections are asked to; both maps stay |
| HostKeys.KeyIdempotent | jar.go:180-188 | the host key of a host key is itself |
| HostKeys.SubHostKey | jar.go:180-188 | prefixing labels leaves the key unchanged if and only if the host contains a dot |
| HostKeys.SameKeyIff | jar.go:180-188 | two hosts share a key exactly when their last two labels, or their single labels, agree |
| HostKeys.KeyOfLabels | jar.go:180-188 | of a host with a dot only the last two labels count, and a single label is its own key |
| Text.JoinSplit | jar.go:181 | joining what was split gives the text back |
| Text.SplitJoin | jar.go:181-184 | splitting what was joined gives the parts back if no part contains the separator |
| Cookies.FilterPositions | jar.go:213-222 | the filtering loops keep exactly the accepted positions, in order, and move none to the right |
| Cookies.UniquePositions | jar.go:191-205 | `unique` returns the last occurrence of each name, once, in decreasing order of position |
| Cookies.UniqueTwice | jar.go:191-205 | applying `unique` twice gives the reverse of applying it once |
| JarLaws.UniqueKeepsMap | jar.go:191-205 | `unique` keeps the map from names to cookies, so the last cookie of each name wins |
| JarLaws.SetMerges | jar.go:105-136 | on the map of a host `SetCookies` is last-non-empty-wins override, or add-if-absent with skipExisting |
| JarLaws.SetKeepsDistinct | jar.go:111-136 | in both modes `SetCookies` keeps the names of a host list distinct |
| JarLaws.SetKeepsConsistent | jar.go:111-136 | in both modes it keeps equal names denoting the same cookie |
| JarLaws.ReadForgetsOnlyExpired | jar.go:140-148 | `Cookies` may forget expired entries and never a live one |
| JarLaws.ReadKeepsFind | jar.go:162-176 | what `Cookie` returns for any name is the same before and after `Cookies` |
| JarLaws.PartitionedTail | jar.go:226-244 | all live slots come first exactly when no live slot lies beyond the number of live slots |
| JarLaws.ReadRaisesLiveCount | jar.go:226-244 | a read never lowers the number of live slots; it leaves the number, and the list, unchanged exactly when all live slots come first |
| JarLaws.ReadsSettle | jar.go:140-148 | repeated reads settle after at most as many calls as there were expired slots |
| JarLaws.SecondReadDuplicates | jar.go:144-147 | for a list of distinct names a second read returns distinct names, and the same cookies as the first, exactly when no expired slot preceded a live one |
| JarTerms.SetPositions | jar.go:101-137 | the exact list after `SetCookies`, position by position: the stored cookies in order, without those given anew in override mode, then the last cookie given of each name, from the end of the incoming list, without those stored already with skipExisting; given means with a value, or any if empty cookies are allowed |
| JarTerms.SetNames | jar.go:101-137 | a name is stored afterwards if and only if it was stored or is given |
| JarTerms.LastGivenWins | jar.go:101-137 | in override mode the last cookie given of a name is the one stored under it |
| JarTerms.ReadPositions | jar.go:226-244 | `Cookies` returns exactly the cookies with `MaxAge` above -1, in order, and leaves the stored list behind them as it was |
| JarTerms.FindFinds | jar.go:162-176 | `Cookie` finds the first cookie of that name with `MaxAge` above -1, and nothing exactly when there is none |
| JarTerms.NonEmptyPositions | jar.go:208-223 | `nonEmpty` keeps exactly the cookies with a value, or all of them if empty ones are allowed, in order |
| JarRuns.ApplyAllowed | jar.go:101-148 | each call takes the map host, name to cookie where the specification allows |
| JarRuns.JarRefinesMap | jar.go:101-148 | so does every sequence of calls on any hosts, and equal names in a host list always denote the same cookie |
| JarRuns.OverrideIgnoresReads | jar.go:122-133 | in override mode the live cookies of every host are those of a jar on which nothing was ever read |
| JarRuns.SkipNoticesRead | jar.go:111-121 | with skipExisting a read before a `SetCookies` is invisible if and only if that call brings no live cookie under a name the read forgets |
| JarRuns.SkipNoticesReadExample | jar.go:111-121 | a list and a call where it is not |
| JarSkips.SkipIgnoresReadsIff | jar.go:101-148 | with skipExisting, over any sequence of calls: the live cookies at the end are those of the jar on which nothing was read if and only if no call brings a live cookie under a name forgotten by then |
| JarSkips.NewJarIgnoresReadsIff | jar.go:101-148 | the same from a new jar |
| JarAtomicity.ReturnsLiveStoredCookies | jar.go:140-148 | in every state of every interleaving the slice of each call holds only live cookies that were stored |
| JarAtomicity.SerialRun | jar.go:140-148 | calls one after the other return slices of the lengths, and leave the array, that the sequential function gives |
| JarAtomicity.QuietIsAtomic | jar.go:140-148 | if all live slots come first every interleaving has that outcome |
| JarAtomicity.LateReader | jar.go:140-148 | if not, some interleaving of any two or more calls ends with another outcome than calls one after the other in any order |
| JarAtomicity.AtomicIff | jar.go:140-148 | `n` interleaved calls always have the outcome of `n` calls one after the other if and only if `n` is at most one or all live slots come first |
| JarReaders.ReadersHarmlessIffPartitioned | jar.go:141-147 | any number of interleaved readers leave the stored array alone, whatever the interleaving, if and only if all live slots come first |
| JarReaders.SoloRun | jar.go:226-244 | a reader running alone leaves the array as the sequential function says |
| JarReaders.RunsToEnd | jar.go:226-244 | a reader that runs alone from anywhere in its loop compacts the rest of the array as it is then |
| JarReaders.TwoReadersLoseCookie | jar.go:141-147 | two interleaved readers that lose a live cookie |
| JarLosses.KeptRun | jar.go:226-244 | in every interleaving the slots before the first expired one, and all from the last live one on, stay as they were |
| JarLosses.ReadersSqueeze | jar.go:226-244 | if a live slot follows an expired one, some interleaving ends, with all readers returned, with the slots before the first expired one as they were and, beyond, no live cookie but the last one |
| JarLosses.CanBeLostIff | jar.go:140-148 | for every list and cookie: some interleaving of any number of readers has, when all have returned, lost the live cookie if and only if it does not stand before the first expired slot and is not the last live one; and otherwise it is there in every state on the way |
| JarLosses.LossIffTwoLiveAfterExpired | jar.go:140-148 | on a list of distinct names interleaved readers can lose a live cookie if and only if at least two live slots follow the first expired one |
| JarLookups.LookupMissesIff | jar.go:162-176 | a lookup that interleaves with readers can return nil for a name if and only if the name stands neither before the first expired slot nor in the last live one |
| JarLookups.MissedIffLost | jar.go:162-176 | on a list of distinct names a lookup can miss a live cookie if and only if readers can lose it |
| JarLookups.FindsOnlyStored | jar.go:162-176 | however a lookup interleaves with readers, what it returns was stored under that name, and live |
| JarLookups.AloneFindsFirst | jar.go:162-176 | undisturbed, it returns the first live cookie of that name, and nil exactly when there is none |
| Slices.Append | jar.go:121-132 | Go's `append`: the new contents, in the same array when the capacity allows, without touching what lies outside the appended slots, and else in a new array |
| Slices.Compact | jar.go:226-244 | compaction in place: the accepted cookies in order, then the old tail, at unchanged length; the whole array is then given, so nothing outside the window changes |
| Slices.CollectUnnamed | jar.go:124-131 | the loops of `SetCookies` collect, in a new array, exactly the cookies whose name is not taken |
| Slices.FindByName | jar.go:247-254 | the first cookie of that name, or none exactly if the list does not have the name |
| Slices.UniqueByName | jar.go:191-205 | the backward loop with its `seen` map computes `Unique`, in a new array |
| CookieJars.ReadKeepsLoans | jar.go:226-244 | compacting a stored array changes no slice ever handed out: live prefixes are fixed points of compaction |
| CookieJars.AppendKeepsLoans | jar.go:121 | neither does appending beyond the stored length |
| CookieJars.ReadKeepsGood | jar.go:140-148 | a read keeps every earlier slice intact and its own result joins them |
| CookieJars.CookieJar.constructor | jar.go:73-98 | a new jar is empty |
| CookieJars.CookieJar.SetCookies | jar.go:101-137 | the list of that host changes as `JarTerms` says, position by position, and no other list; hosts never come to share arrays, and no slice handed out before is changed, even when it is the argument |
| CookieJars.CookieJar.GetCookies | jar.go:140-148 | returns exactly the stored cookies with `MaxAge` above -1, in order, as a slice that stays intact; the stored list becomes that result followed by the old tail, and no other list changes |
| CookieJars.CookieJar.NonEmpty | jar.go:208-223 | returns the cookies with a value, or all if empty ones are allowed; compacts the caller's slice in place and changes no array of the jar |
| CookieJars.CookieJar.GetCookie | jar.go:162-176 | the first stored cookie of that name with `MaxAge` above -1, and none exactly when there is no such cookie |
| CookieJars.CookieJar.CookiesMap | jar.go:151-159 | a map of the stored slices themselves |
| CookieJars.CookieJar.LoanUnchanged | jar.go:147 | whatever calls followed, a slice returned by `Cookies` still holds what it held |
| CookieJars.StoredSliceKeptIff | jar.go:144-158 | a slice of `CookiesMap` shows the same cookies after a call of `Cookies` on its host if and only if all its live cookies come first |
| CookieJars.ReturnedSliceIsFrozen | jar.go:140-148 | for example after it was passed back to `SetCookies` on any host and its host was read again |
| Numerals.ParsePrintIn | ja3.go:26-151 | in decimal and in hexadecimal, a printed number is a numeral of that value |
| Numerals.ParsesIff | ja3.go:26-151 | exactly which texts are read as `n`: its digits, in capitals or not, after any zeros, as long as `n` is in range |
| Ja3.KnownIds | ja3.go:146-195 | the final table holds the ids of the base map, those always added, and 27 exactly when compression algorithms were given |
| Ja3.TablePayload | ja3.go:146-195 | the table overwritten entry by entry holds under each id what that extension must carry |
| Ja3.AcceptedIff | ja3.go:122-224 | exact acceptance: with at least five parts, parsing succeeds if and only if ciphers, extensions and curves are 16-bit decimals, points are 8-bit decimals, and each extension is GREASE or known; curves and points may be empty; with fewer parts it panics |
| Ja3.EmptyFieldsRefused | ja3.go:124-135 | empty cipher or extension fields are refused |
| Ja3.ParsePrinted | ja3.go:120-232 | printing a JA3 and parsing it gives back the ciphers and the extension ids in order, each with what it must carry (the curves and point formats wherever extensions 10 and 11 are listed), and the one compression method 0 |
| Ja3Objects.ParseNumbers | ja3.go:137-156 | the number loops compute `Numbers`, stopping at the first error |
| Ja3Objects.BuildTable | ja3.go:146-195 | the table overwritten entry by entry is `FinalTable`, of new objects each under its own id |
| Ja3Objects.ParseExtensions | ja3.go:197-215 | the extension loop computes `Entries`; two positions share an object if and only if they have the same non-GREASE id |
| Ja3Objects.StringToSpec | ja3.go:120-232 | computes `Parse`, with that sharing, and all objects of the result are new |
| Ja3Objects.InvokeTwice | ja3.go:18-116 | two invocations give equal values and share no extension object |
| Ja3Factory.AlgorithmsAccepts | ja3.go:19-49 | a list of algorithms is accepted if and only if each is a known name or 16-bit hexadecimal, and is then mapped position by position |
| Ja3Factory.SuitesAccepts | ja3.go:51-78 | a list of candidate suites is accepted if and only if each is two known names or two 16-bit hexadecimals, and is then mapped position by position |
| Ja3Factory.FactoryAcceptedIff | ja3.go:17-116 | the factory gets as far as parsing if and only if each algorithm is a known name or 16-bit hexadecimal and each candidate suite is two known names or two hexadecimals; extension 27 is then known exactly when one compression name is |
| Ja3Factory.ConfigGives | ja3.go:17-116 | the arguments of `stringToSpec` that the loops over names produce, list by list |
| Ja3Factory.ParseGives | ja3.go:120-232 | from such arguments parsing gives each listed extension what its own inputs say |
| Ja3Factory.ParseRefuses | ja3.go:120-224 | a parse error names the first text that is not a decimal in range or not a known extension, curves before point formats before extensions before ciphers |
| Ja3Factory.Factory | ja3.go:17-118 | what each input list becomes in the result: signature algorithms in extension 13 and delegated credentials in 34, name by name; suites in 65037, each side on its own; the known versions in 43, the known curves in 51 with the data [0] exactly for "GREASE", the known compression names in 27, in order; the protocol lists in 16, 17513 and 17613, the limit in 28, curves and point formats in 10 and 11; the ciphers and extension ids of the JA3 string; or else which name or text is refused, in the order of the loops |
| ProxySwitch.TransportFollowsProxy | client.go:230-286 | after any sequence of `SetProxy` calls with arbitrary answers the transport is built from the current URL, which is that of the last call whose own apply succeeded; an error comes only when apply and rollback both fail |
| ProxySwitch.BackToOriginalIff | client.go:423-434 | with arbitrary answers `DoWithProxy` restores the URL if and only if the new one was not applied, was the same, or the old one could be applied again; and which proxy the request ran on |
| ProxySwitch.EachRequestOnItsProxy | client.go:423-434 | with a deterministic constructor that accepts the client's own proxy, as it did when the client was built, in every interleaving each send of a `DoWithProxy` runs on its own proxy if usable and else on the original, and the client is back on its original whenever `proxyLck` is free |
| ProxySwitch.PlainSendsElsewhereIff | client.go:431 | the client's transport is not the original one if and only if some `DoWithProxy` has another in place, so exactly then a plain `Do` runs elsewhere |
| ProxySwitch.AloneDoesAsSpecified | client.go:423-434 | undisturbed, the machine does to the client what the function `DoWithProxy` says |
| ProxyRaces.SetCallsAgreeIff | client.go:230-286 | with arbitrary answers of the constructor, interleaved `SetProxy` calls always end with a transport built for the configured URL if and only if there is at most one, or all set the configured URL, or, without a factory, all set the empty URL; and the same of the runs in which no call returns an error |
| ProxyRaces.AgreesIffSameTargets | client.go:230-286 | if the constructor fails on no URL, they always do if and only if all set the same URL |
| ProxyRaces.LockProtects | client.go:423-434 | with arbitrary answers, if all calls are `DoWithProxy`, the transport is one built for the configured URL in every state in which `proxyLck` is free |
| ProxyRaces.PairDisagrees | client.go:230-286 | one `SetProxy` beside one `DoWithProxy` can end, without an error, with a transport built for another URL, unless neither changes the URL |
| ProxyRaces.KindsAgreeIff | client.go:230-434 | for every set of calls: any number of these, interleaved, always end with a transport built for the configured URL if and only if they are all `DoWithProxy`, or none changes the URL, or, without a factory, all are `SetProxy` to the empty URL |
| ProxyRaces.SendsOnceUnlessRefused | client.go:423-434 | with arbitrary answers, however the calls interleave: a call returns an error if and only if its first `SetProxy` failed in its rollback too; a `DoWithProxy` then sends nothing, and else sends its request once |
| HttpClients.HttpClient.Build | client.go:133-191 | no client exactly if there is a factory or a non-empty URL and the dialer constructor fails; a new client's transport is the one for its URL |
| HttpClients.HttpClient.ApplyProxy | client.go:252-286 | an error exactly if there is a factory or a non-empty URL and the constructor fails; the transport is then kept, and else rebuilt for the current URL |
| HttpClients.HttpClient.SetProxy | client.go:230-245 | the URL is the new one unless its apply failed, and else the old one; an error comes back exactly if both applies fail, and then the transport is kept |
| HttpClients.HttpClient.DoWithProxy | client.go:423-434 | which proxy the request runs on, or that it is not sent, and the URL afterwards, from the answers of the constructor; the lock is free again |
| Tunnels.InvStep | connect.go:247-353 | each step of any call keeps the invariant: the cache, the lock and what becomes of each connection |
| Tunnels.CacheNamesOneAcceptedConnection | connect.go:247-263 | whenever the cache lock is free the two cache fields are both empty or name one HTTP/2 connection that had a CONNECT answered with 200 |
| Tunnels.NoLockOverTheNetwork | connect.go:248-264 | no call holds the lock while it waits for the network or after it returned, none releases it without holding it, and the holder can always move |
| Tunnels.SomeCallCanMove | connect.go:248-264 | deadlock freedom |
| Tunnels.TunnelsWereAccepted | connect.go:202-245 | every tunnel returned runs over a connection that answered a CONNECT with 200 |
| Tunnels.NoConnectionIsLost | connect.go:302-353 | once the call that dialed a connection has returned, the connection is its tunnel or was closed |
| Tunnels.OnlySharedTunnelsAreClosed | connect.go:209-218 | the dialer closes a connection it returned only if reuse is on and the connection is HTTP/2 |
| Tunnels.FailedReuseClosesTheTunnelsOfOthers | connect.go:209-263 | from every state with a free lock and a filled cache, one failed CONNECT on the cached connection closes it and leaves it in the cache |
| Tunnels.UntouchedStaysOpen | connect.go:209-353 | an open connection that is not cached and that no call works on is never closed and never cached, whatever calls follow |
| Tunnels.CanBeClosedIffCached | connect.go:209-353 | in every reachable state with all calls returned, an open connection can still be closed by the dialer if and only if reuse is on and it is the cached one |
| ConnectDialers.ConnectDialer.TakeCached | connect.go:248-264 | takes the cached connection exactly if there is one that takes requests, and releases the lock before using it |
| ConnectDialers.ConnectDialer.ConnectHttp1 | connect.go:221-245 | succeeds exactly when all four steps do; the connection is then accepted, and else closed |
| ConnectDialers.ConnectDialer.ConnectHttp2 | connect.go:202-219 | the connection is accepted or closed, and the request now has a pipe as its body |
| ConnectDialers.ConnectDialer.EstablishHttp2 | connect.go:327-349 | a new HTTP/2 connection becomes a tunnel and is cached if reuse is on, or is closed with the cache unchanged |
| ConnectDialers.ConnectDialer.DialContext | connect.go:184-354 | the result, all connections, the cache and the request after a call, case by case: a cached connection that serves it; a new one with "" or "http/1.1" negotiated is a tunnel exactly when the four steps of HTTP/1.1 succeed, with "h2" exactly when client connection and CONNECT do, and is then cached with reuse on, and with any other text is closed; which connections are closed, and when an HTTP/1.1 request still carries a pipe |
| ConnectDialers.SecondCallClosesTheFirstTunnel | connect.go:209-263 | the second of two calls closes the tunnel of the first, which stays cached unless the second gets a new HTTP/2 tunnel |
| Bandwidth.CountersCount | bandwidth/tracker.go:22-49 | over every run of transfers, totals and resets each counter is the number of bytes counted since its last reset, reduced to 64 bits |
| Bandwidth.WrapShows64 | bandwidth/tracker.go:22-49 | what an `int64` shows of a count: the count itself below 2^63, and in any case the value of its range that differs from it by a multiple of 2^64 |
| Bandwidth.CounterIsExactIff | bandwidth/tracker.go:43-49 | a counter shows the true count if and only if that is below 2^63 |
| Bandwidth.NothingLostOrCountedTwice | bandwidth/tracked_conn.go:12-22 | without a reset the count is the sum over the finished reads or writes, however they interleave |
| Bandwidth.TotalIsBetween | bandwidth/tracker.go:35-37 | with no reset meanwhile and totals below 2^63, `GetTotalBandwidth` returns a value between the true totals at its start and at its end |
| Bandwidth.AnswerIsATotalIff | bandwidth/tracker.go:35-37 | for every set of sides: each call that counts, between the two loads, on these sides only and sees no reset there returns the total of some state of its run, if and only if the set lacks a side |
| Bandwidth.AnswerWasNeverTheTotal | bandwidth/tracker.go:35-37 | a run without resets, counting on both sides, in which the value returned was the total at no moment |
| Bandwidth.TotalsArePrefixTotals | bandwidth/tracker.go:35-37 | the totals of a run are those after its prefixes |
| Trackers.Tracker.GetTotalBandwidth | bandwidth/tracker.go:35-37 | undisturbed, the true total as an `int64` shows it, exactly below 2^63 |
| Trackers.Tracker.GetReadBytes | bandwidth/tracker.go:31-33 | the true count of bytes read since the last reset, as an `int64` shows it, exactly below 2^63 |
| Trackers.Tracker.GetWriteBytes | bandwidth/tracker.go:27-29 | the same for bytes written |
| Trackers.Tracker.Reset | bandwidth/tracker.go:22-25 | both counts are zero afterwards |
| Trackers.Tracker.TrackConnection | bandwidth/tracker.go:39-41 | a new connection around the given one that feeds this tracker |
| Trackers.BTConn.Read | bandwidth/tracked_conn.go:12-16 | adds exactly the bytes the connection says it read, failed or not, and none to the other side |
| Trackers.BTConn.Write | bandwidth/tracked_conn.go:18-22 | the same for writes |

## Left out

* Atomicity of the jar's methods: the class and `JarRuns` take each method as one step. `Cookies` writes under the read lock, so for concurrent calls on one host this is an assumption; `JarAtomicity.AtomicIff` says when it holds. Concurrent calls are compared by the lengths of their slices and the final array.
* Callers of the jar do not write into cookies or into slices handed out, and pass slices within their length.
* The slices in the map `CookiesMap` returns are the stored ones, so a later call of `Cookies` may change what they show. Only slices returned by `Cookies` are proved frozen.
* What the Go runtime does when accesses of `cachedTransports` collide: each access is one step of the machine; `HandOffRaces` says which can collide.
* The assumption that the transport cached under an address dials only that address is about the transports, which are not part of this model.
* TLS handshake, HTTP/2, HTTP/3, QUIC and socket dialing: any success or error.
* The underlying `cookiejar.Jar`, to which `SetCookies` also writes, is not read by the jar and not modelled.
* Freedom from connection leaks: a connection refused by the pin check, one whose handshake with the proxy failed, and a stashed h3 connection are not closed by the code. They are accounted for as such.
* Bytes in flight: a transfer counts when its atomic add is done, not when the bytes moved.
* Name tables (mapper.go), profiles and the numbers of TLS extensions other than those in ja3.go: tables are parameters; extension ids are those of the TLS registry. The warning printed for extension 27 is left out.
* Storage of pins (pinner.go): the check passes or fails.
* Transport tuning, TLS configurations, redirects, time limits, logging, headers of the CONNECT request: field copying.
* The direct dialer after a proxy switch is not the one of construction (`proxy.Direct` against `newDirectDialer`); proxies are compared by URL.
* `newRoundTripper` is taken to succeed in `applyProxy` and `buildFromConfig`: only the dialer constructor can fail.
* `getDialTLSAddr`: the address key is given.
* `strings.ToLower` is modelled on ASCII letters, `strings.Split` and `ParseUint` on characters.
* Go may give two zero-sized extension structs one address; here a new object differs from all others.
* ConnectDialers.ConnectDialer.DialContext: models connections and client connections as identities in a table, and the double close after a failed CONNECT as one step, since closing again changes nothing.
* RoundTrippers.RoundTripper.RoundTrip: ends where the transport is called; connections and transports are identities, since nothing else of them is used.
* RoundTrippers.RoundTripper.TransportDial: is stated for an address that has a cached transport, which is the assumption about transports above; what a dial for another address can lead to is `HandOffLimits.RedialPanicsIffUncached`.
* RoundTrippers.RoundTripper.constructor: sets the maps, the mutexes and the handler; the choice of the dialer and the error of the pinner are in `Build`.
* CookieJars.CookieJar.SetCookies: takes a slice within its length; a slice handed out by the jar and re-extended into its spare capacity would be compacted into slots other slices show.
* CookieJars.CookieJar.NonEmpty: the same.
* In `ProxySwitch` an `applyProxy` is one step, as it is under `proxyLck`; `ProxyRaces` takes it statement by statement.
* The requests of `DoWithProxy` beside `SetProxy`: `ProxyRaces` says when URL and transport agree in the end; on which proxy each request runs is stated for `DoWithProxy` and `Do` only, in `ProxySwitch`.
