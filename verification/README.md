# Verified models of pritunl-zero

A Dafny project that models the parts of pritunl-zero whose correctness is hard to see from any one function, and
proves what they are for. `dafny verify dfyconfig.toml` checks everything. MongoDB collections are maps with the atomic
operations the code uses (insert under a unique key, conditional update, upsert); foreign calls are parameters whose
answers are arbitrary. Handlers and workers that change state are classes and methods, each proved against one
specification function; the main results are lemmas over all runs of those functions.

| file | what it models |
|---|---|
| Wrappers.dfy, Sequences.dfy, Text.dfy | optional values and results; places in sequences; decimal printing and splitting of text |
| Glob.dfy, Subnet.dfy | the recursive glob matcher against a declarative language, and the host patterns of IPv4 blocks |
| Requires.dfy, RequiresSettling.dfy | start-up ordering of modules by moves and restarts, and when it would come to rest |
| RequiresRounds.dfy, RequiresInsertion.dfy, RequiresCap.dfy | how many rounds that takes, and which lists the cap of a hundred rounds lets start |
| RequiresLinked.dfy | which sets of modules come to rest from every order of registration |
| RequiresModules.dfy | the repository's own seventeen modules |
| Secondary.dfy, Login.dfy | secondary tokens and the user console's login as a state machine |
| SshApproval.dfy, SshAnswers.dfy | approval of SSH challenges by calls that hold stale copies, and what each request does to it |
| Chart.dfy, NetworkChart.dfy | gap filling on a time grid, and the network chart, grouped or by single documents |
| Search.dfy, Bulk.dfy | the batching pipeline of the search workers, and bulk requests with retries |
| Rokey.dfy | hourly keys shared through one store and per-node caches, and the session signatures made with them |
| Replay.dfy | the replay window of signed requests |
| Hsm.dfy, Base64.dfy | the sealed HSM payload and the unpadded base64 of U2F, as round trips |
| Certificates.dfy | the TLS certificate index against a linear scan |

## What turned out to need a condition

Each of these is a property one would expect of the code that does not hold without a condition; the condition is proved
to be enough, and a run or an input shows that it is needed.

- Given enough rounds, the ordering repair puts a set of modules in order from every order of registration exactly if
  its constraints have no cycle and are linked: wherever `x` leads `y` and needs `z`, something among `y` and what `y`
  needs directly or through others is `z` or is led by `z`. From some order, every other set swings for ever.
  One-sided constraints are linked, and so are compatible ones (whoever is led by a module needs all that module
  needs). Within its cap of a hundred rounds the repair settles all acyclic linked lists of a size exactly up to six
  modules, and all acyclic before-only lists exactly up to fourteen. The repository's own seventeen modules settle
  within 85 rounds in any order of registration.
- A user who owes a device has a ceremony of the console before every session exactly if the policy names no provider.
  With a provider, a device added for that user elsewhere while the provider is being answered ends the wait.
- SSH approvals have all factors of their approver, whoever presents the tokens, exactly if no user lends to another: if
  no user's token carries another user past a factor that user owes. The handlers do not compare presenter and owner.
- One key per type and hour needs calls of `Get` to reach the store within 719 hours of reading the clock.
- A signed request is accepted at most once exactly if the span of its window plus the delay before its nonce is stored
  is below the nonce lifetime. The span of a timestamp 2^63 nanoseconds or more ahead is not that of the window, because
  the negation in `SinceAbs` wraps around there.
- A sealed text comes back whole exactly if it does not end in a zero byte.
- A decoded base64 text is re-encoded to itself exactly if its unused bits are zero.
- The certificate index keeps the case and trailing dots of certificate names while it normalises the asked name, so a
  name in the index, exact or wildcard, is served exactly if it has no upper-case letter and no trailing dot.

## Model

| member | source | states |
|---|---|---|
| Glob.MatchRune | utils/match.go:21-46 | the loop that reslices both texts and recurses only on `*` answers true exactly for the texts in the pattern's language, defined independently as a cover of the text by one piece per symbol; the measure for its termination is proved |
| Glob.Match | utils/match.go:3-19 | after copying both strings rune by rune, the same equivalence for whole strings |
| Glob.LanguageOfConcatenation | utils/match.go:21-46 | `p + q` matches a text exactly when some cut of it has its front matched by `p` and its back by `q` |
| Glob.LanguageOfEmpty | utils/match.go:22-24 | only the empty text is in the language of the empty pattern, whether or not the loop was entered |
| Glob.LanguageOfOneRune | utils/match.go:25-39 | a leading `?` or literal consumes exactly one rune: the branch that reslices both texts loses no match |
| Glob.LanguageOfStar | utils/match.go:31-34 | a leading `*` matches either nothing or at least one rune: the two recursive calls together decide it |
| Glob.LanguageOfLiteralPrefix | utils/match.go:3-46 | a pattern that starts with a literal word matches exactly the texts that start with that word and go on in the rest's language |
| Subnet.ParseSubnetMatch | authority/utils.go:25-123 | for an IPv4 block of prefix length 8, 16, 24 or 32 the produced pattern matches the dotted form of an address exactly when the address is in the block; an unparsable text and any other length are the two errors |
| Subnet.PatternDenotes | authority/utils.go:75-119 | the pattern made from the leading parts denotes exactly the addresses with the same leading octets, without one part's digits spilling into the next |
| Subnet.PartsOfPrinted | authority/utils.go:38-39 | splitting the printed network at the dots gives back its four octets, so the parts the code indexes are the network's |
| Subnet.BlockIndex | authority/utils.go:28-37 | for a whole-octet length, the block an address lies in is the number made of its leading octets |
| Subnet.LeadingOctets | authority/utils.go:28-37 | lying in the same block is agreeing with the masked network in the leading octets |
| Text.DecimalInjective | rokey/cache.go:18 | equal decimal prints are prints of equal numbers, negative ones included; cache keys and dotted addresses rest on it |
| Requires.Module.Before | requires/requires.go:23-25 | adds exactly one name to the module's `before` set and leaves the rest |
| Requires.Module.After | requires/requires.go:27-29 | adds exactly one name to the module's `after` set and leaves the rest |
| Requires.Registry.New | requires/requires.go:31-39 | the list grows at its end by one fresh module without constraints; the others keep their places |
| Requires.Registry.ScanBack | requires/requires.go:49-56 | finds the nearest earlier module named in `before` |
| Requires.Registry.ScanOn | requires/requires.go:58-65 | finds the nearest later module named in `after` |
| Requires.Registry.FindMove | requires/requires.go:45-68 | the first module with a due move, looking back before looking on, or none exactly when the list is in order |
| Requires.Registry.Round | requires/requires.go:45-68 | one round makes exactly that move, permuting the list and keeping its numbering, or changes nothing exactly when the list is in order |
| Requires.Registry.Init | requires/requires.go:41-136 | the list is always a permutation of the registered modules; handlers run only on a list in which no module precedes one named in its `after` set or follows one named in its `before` set, in list order, each once, up to the first that fails; the exit is taken exactly when none of the first hundred rounds reaches such a list |
| Requires.LastBeforeIsNearest | requires/requires.go:49-56 | nothing between the found module and the one looking is named in `before` |
| Requires.FirstAfterIsNearest | requires/requires.go:58-65 | nothing between the one looking and the found module is named in `after` |
| Requires.SatisfiedIffSettled | requires/requires.go:46-73 | the absence of a due move at every position is the order property itself, stated over all pairs |
| Requires.IteratePermutes | requires/requires.go:44-69 | any number of rounds only permutes the list |
| RequiresSettling.MoveDrops | requires/requires.go:58-65 | moving an element behind a later one of lower rank lowers the weighted vector of rank inversions, though it may raise a lighter entry |
| RequiresSettling.RoundDropsAfter | requires/requires.go:44-69 | each round on an after-only list that is not yet in order lowers that measure, whatever the starting order |
| RequiresSettling.RoundDropsBefore | requires/requires.go:44-69 | the same for before-only lists, read backwards |
| RequiresSettling.AfterOnlySettles | requires/requires.go:44-73 | were there no cap, an acyclic after-only list would be in order after at most as many rounds as that measure; the bounds that the cap is compared with are those of `RequiresCap.CompatibleSettles` and `RequiresLinked.LinkedSettles` |
| RequiresSettling.BeforeOnlySettles | requires/requires.go:44-73 | the same for an acyclic before-only list and the measure read backwards |
| RequiresSettling.MixedMayNeverSettle | requires/requires.go:44-73 | with both kinds, acyclic constraints are not enough: a three-module list that has a good order, but is not linked, swings between two bad ones for ever |
| RequiresRounds.RepairSkips | requires/requires.go:45-68 | a round passes over the settled front and acts on the first unsettled element |
| RequiresRounds.MoveUnloads | requires/requires.go:58-65 | a move behind a needed module lowers the summed weight of those that wait, for all weights in which everyone outweighs its followers together |
| RequiresRounds.FrontQuiets | requires/requires.go:44-69 | the first unsettled place gets an element that needs nothing behind it within that weight in rounds, and the settled front stays as it is |
| RequiresInsertion.Inserts | requires/requires.go:44-69 | a settled front of i modules takes in a newcomer that leads some of them within i rounds, each module moving aside at most once |
| RequiresCap.CompatibleSettles | requires/requires.go:44-73 | a sharper bound for some of the lists of `RequiresLinked.LinkedSettles`: every acyclic list of n modules in which the one led needs all that its leader needs is in order after at most 2^n - n - 1 moves behind needed modules and n(n - 1)/2 moves in front of led ones; one-sided lists take only the one kind |
| RequiresCap.FallingTakes | requires/requires.go:58-65 | a falling stretch of m modules, each after all lower ones, takes exactly 2^(m - 1) - 1 rounds to bring its lowest to its front, and none of them finds the list in order |
| RequiresCap.AfterOnlyStartsIff | requires/requires.go:44-77 | within the cap of a hundred rounds all acyclic after-only lists of a size come into order if and only if the size is at most six; from seven on the reversed list is given that does not |
| RequiresCap.CompatibleStartsIff | requires/requires.go:44-77 | the same threshold holds for all compatible acyclic lists |
| RequiresCap.BeforeOnlyStartsIff | requires/requires.go:44-77 | for before-only lists the threshold is fourteen |
| RequiresInsertion.NeedsBeforeLed | requires/requires.go:49-65 | in the settled front, what the next module needs stands in front of all that it leads, so no move in front passes a needed module |
| RequiresLinked.ComesBack | requires/requires.go:44-69 | the first unsettled module, as long as it needs something further on, ends up behind it however often it moves to the front first |
| RequiresLinked.LinkedSettles | requires/requires.go:44-73 | from every starting order, an acyclic linked list of two or more modules, n, is in order after at most 7 * 2^(n - 2) - 2n - 1 rounds |
| RequiresLinked.LinkedSettlesIffAcyclic | requires/requires.go:44-73 | were there no cap, linked constraints, one-sided or mixed, would come to rest if and only if they have no cycle |
| RequiresLinked.UnlinkedSwings | requires/requires.go:44-73 | every acyclic set of modules that is not linked has a starting order from which no number of rounds puts it in order |
| RequiresLinked.SettlesFromEveryOrderIff | requires/requires.go:44-73 | a set of modules comes to rest from all its orders if and only if its constraints have no cycle and are linked |
| RequiresLinked.LinkedStartsIff | requires/requires.go:44-77 | within the cap of a hundred rounds all acyclic linked lists of a size come into order if and only if the size is at most six |
| RequiresLinked.FewStartFromEveryOrderIff | requires/requires.go:44-77 | up to six modules start from all their orders if and only if their constraints have no cycle and are linked |
| RequiresLinked.StartAll | main.go:33 | a registry exits exactly when a hundred rounds do not put it in order; it does so whenever its constraints have a cycle; with linked acyclic constraints and at most six modules it never does, and its list ends in order |
| RequiresModules.ShallowSettles | requires/requires.go:44-73 | a list in which nobody needs two others and only one leads one settles within twice the weight of those that wait, and one more |
| RequiresModules.RepositoryStarts | challenge/event.go:62-64 | in whatever order the seventeen modules of the repository, of which this one needs one and leads another, are registered, they are in order within 85 rounds, so the program never leaves over their order |
| Secondary.SecondaryToken.PushFactor | secondary/secondary.go:54-130 | passes exactly if the token is good, no push was sent before, push is switched on at a Duo, OneLogin or Okta provider, and that provider says yes; the token is marked as soon as the push is sent, whatever comes of it |
| Secondary.SecondaryToken.PhoneFactor | secondary/secondary.go:132-196 | the same for phone calls, of Duo only |
| Secondary.SecondaryToken.PasscodeFactor | secondary/secondary.go:198-262 | the same for passcodes, which may be tried again after a wrong one |
| Secondary.SecondaryToken.SmsFactor | secondary/secondary.go:264-324 | never passes; exactly the first text message that Duo sends ends incomplete and is marked |
| Secondary.SecondaryToken.Complete | secondary/secondary.go:771-789 | completes exactly a token that is not yet disabled, and disables it |
| Secondary.SecondaryToken.Handle | secondary/secondary.go:791-821 | dispatches on the factor; the token is ended exactly by passing |
| Secondary.PassedIff | secondary/secondary.go:54-324 | an attempt passes if and only if the token is not ended, the provider answered yes, and the factor is switched on, served by that type of provider and, but for passcodes, unused |
| Secondary.MarkedMeans | secondary/secondary.go:54-324 | an attempt leaves owner, kind and provider alone; a push or a call is marked whatever comes of it, a passcode is not, and a token is ended exactly by passing |
| Secondary.SecondaryToken.DeviceBegin | secondary/secondary.go:449-518 | a ceremony begins exactly when the token is of the device provider, not disabled, not begun before, and the library begins it; only then is the token marked |
| Secondary.SecondaryToken.DeviceFinish | secondary/secondary.go:520-617 | a ceremony ends well exactly when it was begun on this token and the response is accepted |
| Secondary.MarksStay | secondary/secondary.go:54-324 | over any attempts, a spent factor stays spent and a disabled token stays disabled |
| Secondary.PassesOnce | secondary/secondary.go:771-821 | over any attempts a token passes at most once |
| Secondary.AskedOnce | secondary/secondary.go:54-324 | push and phone are put to the provider at most once for a token, a text message is sent at most once |
| Login.Console.AuthPrimary | uhandlers/auth.go:115-184 | the state after a primary approval is that of the one decision table all handlers share: a device ceremony, a provider, a registration or a session |
| Login.Console.AuthSecondaryPost | uhandlers/auth.go:199-361 | the stored token is marked even when the attempt fails; a completed one leads where the same table says |
| Login.Console.AuthWanRegisterGet | uhandlers/auth.go:628-706 | only a live registration token is marked as begun |
| Login.Console.AuthWanRegisterPost | uhandlers/auth.go:713-851 | only a begun registration that was accepted adds the device and ends in a session |
| Login.Console.AuthWanRequestGet | uhandlers/auth.go:853-906 | only a live device token is marked as begun |
| Login.Console.AuthWanRespondPost | uhandlers/auth.go:912-1064 | only an accepted response leads on, to the provider or the session |
| Login.Console.GetSecondary | secondary/utils.go:64-88 | finds a token exactly when its type is the wanted one and it is not older than the expiry |
| Login.EverySessionJustified | uhandlers/auth.go:115-1064 | in every run, every session of a user comes after that user's primary approval within three token lifetimes, after a completed `User` token within one if a provider is required, and after a device ceremony (or a device added elsewhere) within one if a device is required |
| Login.DeviceFactorWasACeremony | uhandlers/auth.go:115-1064 | a session of a user who owes a device comes after a ceremony of this console within one token lifetime, unless another console added a device for that very user within that time and the policy names a provider as well |
| Login.CeremonyFirstIffNoProvider | uhandlers/auth.go:115-1064 | for a user who owes a device, every session of every run comes after such a ceremony, whatever other consoles do, if and only if the policy names no provider |
| Login.AddedDeviceEndsTheWait | uhandlers/auth.go:280-317 | where it names one, a device added elsewhere while the provider is being answered lets the login end with a session of that user and no ceremony |
| Login.EachTokenPassesOnce | uhandlers/auth.go:199-361 | in every run a token completes at most one provider factor |
| Login.AnsweringGrants | uhandlers/auth.go:115-1064 | for every policy and device count, the user who answers everything asked for ends with a session, so the safety results are not empty |
| Login.RequestMakes | uhandlers/auth.go:115-1064 | a request makes a session for a user if and only if it gives its factor for that user, is neither turned away nor broken off, and the policy leaves nothing to ask for; else it makes exactly the token of what is asked next, and only if the factor was given |
| Login.EndedGetsNothing | uhandlers/auth.go:83-113 | a request that is turned away or broken off gets no token and no session |
| Login.DevicesAfter | uhandlers/auth.go:778-813 | the user gains a device exactly by an accepted registration of that user, or from elsewhere |
| Login.TokenAfter | uhandlers/auth.go:199-361 | a stored token changes only by a request that names it, to what an attempt leaves or by the beginning of a ceremony |
| Login.EveryEventIsCaused | uhandlers/auth.go:83-1064 | in every run each event was written by one of its requests that had what the event says: a session by a request neither turned away nor broken off whose factor was given, a passed provider by an attempt answered yes, a device by an accepted response on a live token |
| Login.CeremonyWasBegun | uhandlers/auth.go:628-1064 | every ceremony in a log was begun by an earlier request on the same token |
| SshApproval.Console.PolicyFactors | challenge/challenge.go:67-84 | the loop's three flags are: some enabled policy asks for a device, the provider of the first enabled policy naming one, some enabled policy asks for a smart card |
| SshApproval.FirstProviderIsSome | challenge/challenge.go:67-84 | a provider is found exactly when some enabled policy names one |
| SshApproval.Console.UpdateIfPending | challenge/challenge.go:192-205 | the store changes exactly when the stored state is still empty |
| SshApproval.Console.Approve | challenge/challenge.go:32-208 | the stored state moves as the specification's attempted answer says, from a copy of any age; missing factors are reported exactly when the gate holds |
| SshAnswers.AnswerTable | challenge/challenge.go:32-208 | a finished call on an open challenge leaves it denied if and only if the user or a policy denies, or nothing is missing and the card does not fit; approved, with a certificate for its key, if and only if nothing refuses, no enabled policy misses a factor, the card fits and something was issued; unavailable if nothing was; and open otherwise |
| SshAnswers.RefusedIsDenied | challenge/challenge.go:56-64 | a call that a policy refuses denies an open challenge, whatever factors are given or missing, and makes no certificate and no token |
| SshAnswers.AskTable | uhandlers/ssh.go:86-145 | a call that misses a factor makes exactly one token, for a device first, else for the provider of the first enabled policy that names one; any other call makes none |
| SshAnswers.NewFlight | uhandlers/ssh.go:62-492 | a call that is loaded carries the challenge as stored, the presenter, and the factor just given on a token for that very challenge, with its owner |
| SshAnswers.EveryEventIsCaused | challenge/challenge.go:32-235 | in every interleaving each event was written by a request that had what the event says: an approval by a call that no policy refused and that missed nothing, a passed provider by an attempt answered yes, a device by an accepted response |
| SshAnswers.CeremonyWasBegun | uhandlers/ssh.go:312-492 | every device in a log was shown in a ceremony begun earlier on the same token |
| SshApproval.Console.Deny | challenge/challenge.go:210-235 | denies exactly when both the copy and the stored state are unanswered |
| SshApproval.Console.SshChallengePost | challenge/challenge.go:273-302 | a new unanswered challenge, unless the key is too long |
| SshApproval.Console.SshValidate | uhandlers/ssh.go:62-213 | a validate call loads its copy and leaves the store alone until it finishes |
| SshApproval.Console.SshSecondaryPut | uhandlers/ssh.go:221-310 | only a passing attempt on a live authority token of a stored challenge carries on to the approval |
| SshApproval.Console.SshWanRequestGet | uhandlers/ssh.go:312-343 | only a live token of the authority device type is marked as begun |
| SshApproval.Console.SshWanRespondPost | uhandlers/ssh.go:349-492 | only an accepted ceremony on a live token carries on to the approval |
| SshApproval.Console.SshFinish | uhandlers/ssh.go:86-145 | a finished call settles the challenge or makes the token of the next missing factor, device first |
| SshApproval.Console.SshChallengeUpdate | uhandlers/ssh.go:534-573 | the waiting client gets the certificate, 412, 401 or nothing yet by the stored state, and 404 when the certificate is gone |
| SshApproval.EveryRun | challenge/challenge.go:32-235 | in every interleaving of calls holding copies of any age, with removals from the stores, approvals come after their factors, every challenge is answered at most once and keeps that answer, and an approved one points at a non-empty certificate for its own key until that has outlived its life |
| SshApproval.ApprovedHasAllFactors | challenge/challenge.go:67-90 | a stored approval means that its approver gave, for that very challenge, a device response if any enabled policy asks for one and a completed provider factor if any names one, unless the approver presented the token of somebody who lends; and the matching smart card if any asks for it |
| SshApproval.AnswerIsFinal | database/database.go:681-703 | no request changes an answered challenge, which leaves the store only by its age of six minutes; what its client is told stays the same, and is the certificate for an approved one, for as long as a certificate lives |
| SshApproval.FinishCall | uhandlers/ssh.go:86-145 | a call with all factors approves; one without makes the token of the first missing factor |
| SshApproval.LendingApproves | uhandlers/ssh.go:221-492 | for any two users of whom the first lends to the second, a run from an empty console ends in an approval of the second that lacks a factor the second owes |
| SshApproval.FactorsGivenIffNoneLend | challenge/challenge.go:67-90 | in every run, whoever presents the tokens, approvals have the factors their approvers owe, if and only if no user lends to another: a condition on the policies alone |
| SshApproval.AnsweringApproves | uhandlers/ssh.go:86-473 | whatever the policies ask for, the user who answers it takes an open challenge to approval |
| Chart.Chart.AddPoint | endpoints/endpoints.go:127-132 | appends one point to the series of its resource and touches no other series |
| Chart.Chart.Add | endpoints/endpoints.go:134-147 | fills the gap before the sample with zeros on the interval and appends it; the other series stay |
| Chart.Chart.Export | endpoints/endpoints.go:149-158 | every series is that of its own samples, filled up to the end |
| Chart.Chart.constructor | endpoints/endpoints.go:160-174 | a new chart has the given range, but for the last minute at an interval of one minute, and no series |
| Chart.ExportConserves | endpoints/endpoints.go:127-158 | exported values add up to the added ones for any times whatever |
| Chart.ExportDense | endpoints/endpoints.go:127-158 | for increasing times, aligned or not, the export starts at the start, strictly climbs with gaps of at most the interval, and reaches the end |
| Chart.ExportIsGrid | endpoints/endpoints.go:127-158 | for aligned times it is exactly the grid from the start to the later of the end and the last sample |
| Chart.ExportCarries | endpoints/endpoints.go:127-158 | every sample is among the exported points, and every other point is zero |
| Chart.ExportValues | endpoints/endpoints.go:127-158 | the value at a time is the sample's at that time, and zero where there is none |
| NetworkChart.GetChart | endpoints/endpoints.go:74-81 | for the network type, both ends move back onto the grid, and from one interval after the epoch on the chart has a series for exactly the interfaces seen in that range, an interval apart from its start, each point the sum over the documents from its time on and before the next |
| NetworkChart.BucketHolds | endpoints/network.go:190-214 | a bucket is the multiple of the interval at or before a time, less than an interval before it |
| NetworkChart.GetNetworkChart | endpoints/network.go:161-278 | the series of an interface and direction are the exports of that interface's grouped values; at one minute, of its single documents |
| NetworkChart.GetNetworkChartSingle | endpoints/network.go:96-159 | the series at one minute are the exports of the single rows in range, up to a minute before the end |
| NetworkChart.ResourceInjective | endpoints/network.go:96-278 | two series share a key only if they are the same interface and direction |
| NetworkChart.KeyTotalIsTotal | endpoints/network.go:180-241 | grouping by interface and time bucket splits the rows without losing or repeating one |
| NetworkChart.NetworkChartConserves | endpoints/network.go:96-278 | at every interval, one minute included, the exported values of an interface add up to the raw values of its documents in range |
| NetworkChart.ValuesFitTheGrid | endpoints/network.go:180-241 | the grouped samples arrive increasing, aligned, and not before an aligned start: what the chart needs |
| NetworkChart.NetworkChartIsBuckets | endpoints/network.go:96-278 | each exported point holds exactly what the documents from its time on and before the next point's hold, zero where there are none, on the grid that the chart draws |
| NetworkChart.ChartIsHeld | endpoints/network.go:96-278 | so the whole chart data: a series for each interface and direction seen in the range and no other, up to the end of the range or the last bucket with an entry |
| NetworkChart.SinglesAreGrouped | endpoints/network.go:67-72 | documents of whole minutes, each once, are their own groups |
| Search.Pipeline.Buffer | search/search.go:92-108 | a document read goes to the end of the last group, or into a new one exactly when that is full |
| Search.Pipeline.TakeGroups | search/search.go:130-140 | the swap leaves one empty group and hands over everything else; without a client, or with an empty front group, the batch is dropped |
| Search.Pipeline.StartWave | search/search.go:142-172 | one wave sends at most the thread limit of groups from the front, in order |
| Search.Pipeline.DrainBatch | search/search.go:142-177 | the waves end with every non-empty group of the batch sent, in order |
| Search.EveryDocumentInOnePlace | search/search.go:92-179 | in every interleaving, what was read is, in order and once each: what was handled, then the batch in hand, then the waiting groups; all groups but the last are exactly full |
| Search.RequestsFitTheLimits | search/search.go:26-32 | no request of the first pipeline is for more than a hundred documents, none of the failed one for more than ten |
| Search.EmptyFront | search/search.go:130-140 | a batch discarded for its empty front group holds nothing |
| Search.NothingLostWithClient | search/search.go:92-179 | while a client is set, every document read has been sent once or still waits |
| Search.NothingSentWithoutClient | search/search.go:134-140 | while no client is set, nothing is sent and no batch is kept |
| Bulk.WriteRequest | search/document.go:61-101 | each document with attempts left is in the request and has used one; an index or marshal failure stops at the document it struck |
| Bulk.SendRounds | search/document.go:58-132 | up to three requests, until one succeeds or writing one fails |
| Bulk.BulkDocuments | search/document.go:55-180 | attempts, requests and requeued documents after a call, for every pattern of failures |
| Bulk.IncludedIff | search/document.go:71-74 | a document is in a request exactly when it has attempts left |
| Bulk.CallCounts | search/document.go:58-132 | each request holding a document took one of its five attempts, and a call that gave up has used as many as three rounds allow |
| Bulk.CallTable | search/document.go:55-132 | for every pattern of failures, by the first round that ends the call: the call gives up exactly without one; each request holds those with attempts left at its round; and every round made counts one attempt, up to five |
| Bulk.RequeuedIff | search/document.go:135-145 | requeued are exactly the documents with attempts left that want retries and find room at their turn, whatever other workers do to the failed buffer meanwhile |
| Bulk.EveryLifeBounded | search/document.go:55-145 | over its whole life, however requests fail, a document is in at most two calls and five requests, so the failed-buffer loop ends |
| Rokey.Cluster.PutCache | rokey/cache.go:36-43 | the key is in the node's two caches under its id and its hour; the other nodes keep theirs |
| Rokey.Cluster.CleanCache | rokey/cache.go:45-61 | both loops keep exactly the keys of less than 721 hours |
| Rokey.Cluster.Get | rokey/utils.go:13-67 | an uninterrupted call is the protocol's steps in order, and returns the answer they record |
| Rokey.Cluster.GetId | rokey/utils.go:69-98 | an uninterrupted call is the protocol's steps in order; a key of another type is cached but not returned |
| Rokey.Cluster.GenerateSignature | session/session.go:67-95 | the session holds the id of the key that Get answered and the signature is made with that key, or the empty-secret error |
| Rokey.Cluster.CheckSignature | session/session.go:34-65 | accepts exactly when the key of the session's type is found with a secret and the signature is the one made with it |
| Rokey.TimeKeyInjective | rokey/cache.go:16-25 | cache keys of one type collide only for equal hours, whatever characters the type has |
| Rokey.CachedIsIssued | rokey/cache.go:16-25 | what the hour cache answers is the one key issued for that type and hour |
| Rokey.NextKeeps | rokey/utils.go:13-98 | every step of every node keeps the invariant of store, caches and calls on their way, and no issued key is ever replaced |
| Rokey.AnswersAgree | rokey/utils.go:13-67 | in every interleaving on any number of nodes in which no call reaches the store more than 719 hours after reading the time, all answers for one type and hour are the same key |
| Rokey.AgreementIffPrompt | rokey/utils.go:13-67 | 719 hours is the exact bound: with any longer delay a run with two keys for one hour is given |
| Rokey.LookupFinds | rokey/utils.go:69-98 | a lookup by id finds an issued key exactly while it is in the node's cache or in the store, and never another key |
| Rokey.LookupIff | rokey/utils.go:69-98 | for any type and id, what is found is the issued key of just that type and id, exactly while available |
| Rokey.GetIsSound | rokey/utils.go:13-67 | an uninterrupted call of `Get` answers with the one key of its type and of the current hour |
| Rokey.GetLeaves | rokey/utils.go:13-67 | after a call the node has the hour's key cached; a stored key is taken as it is, and only a missing one is made, of this hour and with the secret drawn |
| Rokey.GetIdLeaves | rokey/utils.go:69-98 | what GetId finds in the store is cached under its id, even when it is of another type and not returned |
| Rokey.SignatureChecksEverywhere | session/session.go:34-95 | a session signed with any answer of `Get` in any run, its call interleaved with steps of other nodes, is accepted on every node after any further steps with its own signature and no other, exactly while the key is cached there or stored; the store keeps it for 720 hours |
| Replay.SinceAbsMeans | utils/misc.go:106-112 | the absolute age saturates, and 2^63 nanoseconds or more ahead its 64-bit negation is the negative -2^63 |
| Replay.WindowMeans | signature/signature.go:64-71 | the check passes exactly for instants within the window and for instants 2^63 nanoseconds or more ahead |
| Replay.Server.InsertNonce | nonce/nonce.go:16-38 | inserts exactly when the nonce is not stored |
| Replay.Server.Validate | signature/signature.go:49-120 | accepts if and only if the parts are there, the timestamp is in the window, the nonce is new, and the signature is the keyed hash of the joined fields under the secret of the API user with that token; each error has its exact case, in the code's order; a nonce is spent even when the signature is wrong |
| Replay.MessageInjective | signature/signature.go:95-101 | the signed text fixes user, timestamp, nonce, method and path, as long as the fields before the path do not hold the separator |
| Replay.InstantMeans | signature/signature.go:64-71 | a timestamp stands for its own second, and the limit for the window, exactly while 64 bits hold them |
| Replay.SpanMeans | signature/signature.go:64-71 | the first and last moment at which a timestamp passes the window, with no passing moment outside |
| Replay.NextKeeps | nonce/nonce.go:16-38 | every step keeps: acceptances of one nonce lie a nonce lifetime apart, and a nonce accepted more recently is still stored |
| Replay.OnceIffCovered | signature/signature.go:57-117 | in all runs on any number of nodes a genuine timestamp and nonce are accepted at most once if and only if the span of the window plus the longest delay before the insert is below the nonce lifetime |
| Replay.TwoWindowsCover | database/database.go:509-515 | with two windows and the delay below the 24 hours of a nonce, that condition holds for exactly the timestamps less than 2^63 nanoseconds ahead of the start |
| Replay.AcceptedIsGenuine | signature/signature.go:49-120 | in every run only requests in their window are accepted whose signature is the keyed hash of their fields under the secret of the API user with their token |
| Hsm.EncryptBlocks | authority/authority.go:532-533 | in place, block by block, the buffer becomes the chained encryption of its old content |
| Hsm.DecryptBlocks | authority/hsm.go:131-132 | in place from the last block to the first, the buffer becomes the chained decryption of its old content |
| Hsm.Seal | authority/authority.go:510-555 | a payload whose data is the encryption of the text padded by one to sixteen zeros, with the keyed hash over the ciphertext; an empty secret is an error |
| Hsm.UnmarshalPayload | authority/hsm.go:61-137 | the first failing check in the code's order, else the text without trailing zeros; on success the payload's own data is left decrypted, else unchanged |
| Hsm.DecryptUndoesEncrypt | authority/hsm.go:131-132 | chained decryption undoes chained encryption under any block permutation and its inverse |
| Hsm.EncryptAt | authority/authority.go:532-533 | each ciphertext block is the encryption of its plain block mixed with the ciphertext block before it, the first with the initialisation vector |
| Hsm.DecryptAt | authority/hsm.go:131-132 | each plain block is the decryption of its ciphertext block mixed with the one before it |
| Hsm.TrimMeans | authority/hsm.go:133 | nothing but zeros is trimmed, and all of those at the end |
| Hsm.SealedOpens | authority/hsm.go:61-137 | opening a sealed text with its token and secret gives it back without trailing zeros |
| Hsm.RecoveredIff | authority/hsm.go:131-135 | the text comes back whole if and only if it is empty or does not end in a zero byte |
| Hsm.OpensOnlyWithItsKeys | authority/hsm.go:73-102 | a sealed payload opens exactly with its token and a secret whose keyed hash agrees on the ciphertext |
| Hsm.Exchange | authority/hsm.go:61-137 | sealing and then opening on one heap object gives the text without its trailing zeros |
| Base64.Decode | u2flib/util.go:61-66 | the loop whose bound is read from the growing string adds exactly (4 - n mod 4) mod 4 signs for every length n |
| Base64.EncodeTrims | u2flib/util.go:68-71 | trimming removes exactly the padding: the result has no sign and no line end |
| Base64.DecodeOfEncode | u2flib/util.go:61-71 | every byte string survives encoding and decoding |
| Base64.EncodeAt | u2flib/util.go:68-71 | the encoding has a character for every six bits begun, namely the digit of those bits |
| Base64.DecodesIff | u2flib/util.go:61-66 | a string without signs and line ends decodes if and only if all its characters are digits and its length is not one more than a multiple of four |
| Base64.EncodeOfDecode | u2flib/util.go:61-71 | encoding what was decoded gives the string back if and only if its unused last bits are zero |
| Certificates.Certificates.GetCertificate | router/certificates.go:69-90 | the two map lookups answer what a linear scan answers: the last certificate naming the normalised server name exactly, else the last one whose wildcard covers exactly its left-most label, else the node's own |
| Certificates.Certificates.Update | router/certificates.go:92-174 | the maps become the index of the loadable certificates in the order of the first occurrence of their ids; the first lookup error is returned and leaves the maps as they were |
| Certificates.Load | router/certificates.go:93-119 | each id is looked up once, those not found are skipped, the first other error ends it |
| Certificates.FailsFirst | router/certificates.go:98-112 | an update fails with the error of the first id whose lookup fails, and with none if no lookup does |
| Certificates.UpdateMeans | router/certificates.go:92-174 | after an update there is an entry exactly for the names, or the bases of the wildcards, that some stored certificate of the node carries that loads, and it is the certificate of the last such id where each first comes up |
| Certificates.Build | router/certificates.go:121-168 | certificates that do not load are skipped; of the others, later names replace earlier ones |
| Certificates.PutName | router/certificates.go:150-158 | afterwards the domain map has the certificate under the name itself exactly if the name has no leading star label, the wildcard map has it under the base exactly if the name is that base under a star, and every other entry of both is as before |
| Certificates.PutNames | router/certificates.go:149-167 | the common name first, then the alternative names, each into the map of its kind |
| Certificates.IndexOfMeans | router/certificates.go:121-168 | the maps hold, for each name and each wildcard's base, the last certificate carrying it |
| Certificates.CoversBase | router/certificates.go:79-82 | covering exactly one non-empty left-most label is having the part behind the first dot as the wildcard's base |
| Certificates.AnswerIsScan | router/certificates.go:69-90 | for all certificates and names the lookups agree with the scan |
| Certificates.DistinctMeans | router/certificates.go:93-119 | every id once, in the order of the first occurrences |
| Certificates.AskedForIff | router/certificates.go:72-75 | a name can be looked up if and only if it has no upper-case letter and no trailing dot |
| Certificates.ServedIff | router/certificates.go:69-78 | so an exact name in the index is served if and only if it is such a name, and then by the last certificate carrying it |
| Certificates.WildcardServedIff | router/certificates.go:69-90 | a wildcard in the index is looked up for some server name if and only if it is such a name, and then some server name is answered by the last certificate carrying it, whatever the node's own is |
| Certificates.NeverServed | router/certificates.go:69-90 | a certificate with only exact names none of which can be looked up is served to nobody |

## Left out

- RequiresSettling.AfterOnlySettles: sets the cap of a hundred rounds aside, as does its before-only twin; `RequiresCap` and `RequiresLinked` compare with it.
- RequiresLinked.LinkedSettles: its bound is not claimed to be the least one for each size, but it is enough for the exact size within the cap.
- RequiresLinked.UnlinkedSwings: gives one starting order for each unlinked set; which other orders settle is not characterised.
- RequiresLinked.StartAll: promises a start only for registries of at most six modules, the exact threshold over all linked lists of a size; the repository's own registry is that of `RequiresModules.RepositoryStarts`.
- NetworkChart.GetChart: only the network type, with intervals of whole milliseconds; the other chart types are not part of this model.
- Replay.TwoWindowsCover: is about windows of zero or more whole seconds whose nanoseconds fit 64 bits; `OnceIffCovered` has no such limit.
- Subnet.ParseSubnetMatch: IPv6 blocks, whose patterns are not meant to be exact, and the text format of blocks (`net.ParseCIDR`) are not modelled; a parsed block or its absence is a parameter.
- Chart.ExportIsGrid: unbounded integers stand for the 64-bit times and values.
- Certificates.Certificates.GetCertificate: lower-casing is that of ASCII letters, and certificate parsing is a parameter.
- Hsm.UnmarshalPayload: AES, SHA and HMAC are parameters, the first with its inverse law; loading the cipher cannot fail for a key of the hash's size.
- Base64.Decode: text is taken rune by rune; the standard library's bytewise reading differs only on texts it rejects anyway.
- Rokey.Cluster.Get: time zones with offsets that are not whole hours would shift a node's hours; nodes share one clock.
- Login.Console.AuthPrimary: the validator is a fixed answer per user and a flag for every way of being turned away; sessions and audits are log entries.
- Requires.Registry.Init: the error report printed before the exit, and handlers' side effects.
- Bulk.BulkDocuments: request bodies, sleeps, logging and reconnection.
- Glob.Match: texts are rune sequences; invalid UTF-8 is not modelled.
- All network and database drivers, HTTP parsing, redirects, JSON, logging, audit contents and random strings, which are parameters assumed fresh where the code draws them.
- The proxy console, which repeats the user console with other token types, and the admin console, whose registration tokens are also made elsewhere.
- Concurrent requests on one secondary token: completion is a plain field write, so token handling is modelled as serial steps in the login and approval flows.
- Search without a client (batches are dropped by design) beyond that fact, and the failed-group worker's own timing, which has the same shape as the one modelled.
- WebAuthn, X.509, PEM and SSH key parsing, WebSocket notification, the event subscription, and all creation and editing handlers.
