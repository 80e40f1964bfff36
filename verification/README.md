# Verification of V2bX-Turbo's state-keeping core

V2bX-Turbo is the node side of a proxy panel. It pulls users from the panel, pushes them into
a proxy core, limits their devices and speed, counts their bytes and reports both. This
project models the parts of it that keep state and proves what they promise over whole runs.

| file | part of the system |
|---|---|
| `Json5.dfy`, `Json5Bytes.dfy`, `Json5Tokens.dfy`, `Json5Reader.dfy` | the in-place cleaner of JSON5 configuration text, its meaning byte by byte and on token streams, and the reader around it |
| `Limiter.dfy`, `LimiterFields.dfy`, `LimiterRuns.dfy` | the limiter's linked maps, its operations field by field, and device, speed and admission properties of its runs |
| `LimiterSteps.dfy`, `LimiterSolo.dfy` | admission calls of one user, cut at their map operations and interleaved, and that a call by itself is the limiter's |
| `Panel.dfy`, `Iteration.dfy`, `Common.dfy` | the panel's records, user tags, the diff of two user lists; iteration over a map in any order; shared types |
| `Report.dfy` | the report of online devices |
| `Core.dfy` | the Xray core's user tables, traffic harvest and links |
| `Controller.dfy` | the controller: start, monitor ticks, connections and reports, with all replicas in step |
| `Schedule.dfy` | the controller's two periodic tasks and their restart by a changed node |
| `Traffic.dfy`, `TrafficRuns.dfy`, `TrafficTwice.dfy`, `TrafficCode.dfy` | traffic accounting with any number of harvests at once, what runs lose, when they take bytes twice, and the code as runs of that machine |
| `Task.dfy`, `TaskCode.dfy` | the periodic task as interleaved steps, and the code as runs of that machine |
| `Sniff.dfy`, `SniffStream.dfy` | protocol sniffing with pruning, over a read-ahead cache and a counting reader |

## How to read the model

Code that changes fields is a class whose methods are proved against functions on values
(`Limiter.Check`, `Limiter.Update`, `Core.Without`, `Json5.Scan`, `Sniff.Match`); the lemmas
are about those functions and about sequences of operations. Three parts run concurrently: the
traffic counters, the periodic task, and admission calls of one user. They are state machines
whose steps are single atomic operations or critical sections, taken in any order. `TrafficCode`
and `TaskCode` keep the control flow of the harvest and of the goroutine, with anything that
others do between two of its operations, and show that they only make runs of these machines.

Panel answers, what the core refuses, certificate and rule failures, the clock, the order in
which a map is iterated, the bytes a client has sent and the outcome of a read are inputs.

## What the proofs found

* **Stars in block comments.** The scanner steps over the byte after a star that does not
  close the comment (common/json5/json5.go:40-43). A comment is blanked exactly when each star
  of its body is followed by a space inside the body (`ScanCleansTokens`); a doc comment that
  ends in two stars and a slash is enough to break it (`DocumentationCommentIsKept`). The
  comment at common/json5/json5.go:95-97 promises plain removal; the model follows the code.
* **Commas before a trailing comma.** Cleaning again removes more exactly when a comma is
  followed by a trailing comma (`ScanIsIdempotent`, `DoubledCommaIsCleanedLater`).
* **A named node that changes keeps its limiter** (node/task.go:99-106), although the user list
  is replaced at once. It is in step afterwards exactly when the new list has the same (UUID,
  speed) pairs (`NodeInfoMonitor`, `NamedNodeFallsBehind`), and a run keeps all replicas in step
  up to exactly the first tick that moves them (`HandleAll`).
* **The diff compares UUID and decimal speed joined together**, so UUIDs of different lengths can
  hide a change (`KeysCanCollide`). It is right exactly when no old user shares its joined key
  with an old user, or with the first new one that has it, of another pair (`CompareIsDiff`).
* **Device limits and ids are not compared.** After an update the limits are those of the new list
  exactly when no user that keeps its UUID and speed has changed its device limit
  (`DeviceLimitsFollow`, `DeviceLimitChangeIsMissed`), and the tables are otherwise those of the
  new list exactly when no such user has changed its id (`UpdateKeepsSynced`).
* **A restart from inside `Execute` adds a loop** (node/task.go:154-165): the old loop reads the
  new stop channel and goes on. A run keeps to one live loop exactly when no effective Start is
  made while a loop is outside its select (`SingleUnlessOverlap`), and the bound on live loops is
  reached for every number of restarts (`BoundIsReached`).
* **The report task is restarted by every changed node** once its interval was changed, unless
  pull and push intervals are equal, because the code stores the pull interval
  (node/task.go:160-164, `ReportRestartsAgain`).
* **Two reports at once can take the same bytes twice**, since a harvest holds its lock for
  reading only (core/xray/user.go:62). They do exactly when two harvests that have loaded bytes of
  one cell between the same two zeros of it both store zero into it (`TwiceIsExact`);
  `TrafficIsConserved` says how many bytes, and `BytesCanBeTakenTwice` is such a run. With one
  harvest at a time nothing is taken twice, and what is lost is exactly what a counter takes in
  between a load and its store (`SoloIsExact`, `BytesCanBeLost`).
* **Sticky admission can fail under interleaving.** A refused call that had created the user's
  entry deletes it whole (limiter/limiter.go:181), with an IP that another call was admitted with
  meanwhile (`ListedIpCanBeRejected`). The deletion is harmless exactly when the IP is still
  remembered and no call from it is under way (`WipeKeeps`, `HarmfulRejects`): at the device limit
  a run has only harmless deletions exactly when none of its deletions lets a continuation without
  further deletions reject the IP (`ReportedIsExact`). Calls of one user that do not overlap are
  always harmless (`SequentialStaysAdmitted`).
* **The limiter of a node's old tag stays registered**: the code removes the entry of the new tag
  (node/task.go:100-104), and so `Rebuild` only adds to the registry.
* **The need-more-data case of the sniffing loop is never taken**
  (core/xray/app/dispatcher/default.go:499-500): `Sniff` turns that error of a probe into no
  answer or unknown content, so the loop always stops after two reads, contrary to the comment.
* **Pruning is invisible exactly for probes that stay with a failure** on longer payloads
  (`PrunedRoundsAgree`, `StableIsExact`).

## Model

| member | source | states |
|---|---|---|
| Json5.Prep | common/json5/json5.go:49-93 | on every byte sequence, malformed ones included, the loops end, never index outside the buffer although the cursor passes its end, and leave the text that the one-byte-at-a-time machine gives |
| Json5.Scan | common/json5/json5.go:49-93 | the length is kept and each byte is unchanged or a space |
| Json5.ConsumeComment | common/json5/json5.go:21-47 | where the cursor is left after a line comment, a block comment, an unclosed one, or a slash that opens none, and which bytes are final then |
| Json5.SearchAfterComma | common/json5/json5.go:73-87 | the comma is blanked exactly when the search that starts behind it ends on a closing bracket |
| Json5.SkipString | common/json5/json5.go:60-70 | the cursor ends behind the closing quote, escapes skipped, or past the buffer, and no byte of the string changes |
| Json5Bytes.PlainStays | common/json5/json5.go:57-91 | bytes before the first quote, comma or slash stay, and the rest is cleaned as a text of its own |
| Json5Bytes.TrailingCommaGoes | common/json5/json5.go:13-19 | a comma (44) becomes a space when, past bytes 9, 10, 13 and 32, a 93 or 125 follows; the rest is cleaned as a text of its own |
| Json5Bytes.OtherCommaStays | common/json5/json5.go:73-87 | it stays before any other byte that starts no comment, and at the end of the text |
| Json5Bytes.CommaInText | common/json5/json5.go:73-87 | both for a comma behind any bytes without quote, comma or slash |
| Json5Bytes.LineCommentGoes | common/json5/json5.go:22-27 | after two slashes every byte becomes a space up to the first 10 or 13, which stays |
| Json5Bytes.BlockCommentGoes | common/json5/json5.go:28-45 | a block comment without stars inside becomes spaces with its marks |
| Json5Bytes.OtherSlashStays | common/json5/json5.go:71-72 | a slash that opens no comment stays |
| Json5Bytes.StringStays | common/json5/json5.go:60-70 | a string between quotes (34) stays whatever it holds, comments and commas too |
| Json5Bytes.EscapeStays | common/json5/json5.go:60-70 | a backslash (92) hides the byte behind it, so an escaped quote does not end the string |
| Json5Tokens.ScanCleansTokens | common/json5/json5.go:21-93 | for every well-formed token stream the cleaner gives the text with comments and trailing commas blanked and all else kept, if and only if each star inside a block comment is followed by a space inside it |
| Json5Tokens.DocumentationCommentIsKept | common/json5/json5.go:34-43 | the concrete comment that is not blanked |
| Json5Tokens.BlockBlanked | common/json5/json5.go:28-45 | a block comment with padded stars becomes spaces and leaves a search after a comma where it was |
| Json5Tokens.BlockKept | common/json5/json5.go:34-43 | in any other block comment some byte stays |
| Json5Tokens.SearchMeetsTokens | common/json5/json5.go:73-87 | the byte-level lookahead answers the token-level question whether the next token past white space and comments closes |
| Json5Tokens.RendersAt | common/json5/json5.go:49-93 | a text is the rendering of a token stream exactly when the tokens stand at their places |
| Json5Tokens.CleanStream | common/json5/json5.go:57-91 | a cleaned stream is well formed, has no comment, and has a trailing comma exactly where a comma stood before a trailing one |
| Json5Tokens.ScanIsIdempotent | common/json5/json5.go:57-91 | cleaning twice equals cleaning once if and only if no comma is followed by a trailing comma; then no comment and no trailing comma is left |
| Json5Tokens.DoubledCommaIsCleanedLater | common/json5/json5.go:73-87 | two commas before a closing brace, where a second cleaning removes more |
| Json5Reader.TrimNodeReader.Read | common/json5/json5.go:98-107 | a read moves the front of the cleaned text into the buffer, loses no byte, reports the end only at the end, and after a failed copy cleans anew |
| Json5Reader.TrimNodeReader.ReadAll | common/json5/json5.go:98-107 | reading to the end with a buffer of any size yields exactly the cleaned text |
| Panel.UserTagInText | common/format/user.go:7-9 | a tag is the node tag, a vertical bar and the UUID |
| Panel.ItoaInDigits | node/user.go:65-70 | the decimal form has the digits 48 to 57 without a leading zero, and 45 for a sign |
| Panel.UserTagInjective | common/format/user.go:7-9 | tags of different nodes or users differ, for UUIDs without the separator |
| Panel.UuidOfUserTag | common/format/user.go:7-9 | the UUID can be read back from a tag |
| Panel.AtoiOfItoa | node/user.go:65-70 | the decimal form of a speed can be read back |
| Panel.KeyOfPair | node/user.go:65-70 | for UUIDs of equal length, equal joined keys mean equal UUID and speed |
| Panel.CompareByKey | node/user.go:62-83 | which members are added, and one member deleted for each key that only the old list has, in whatever order the map is iterated |
| Panel.CompareIsDiff | node/user.go:62-83 | deleted lies in old only, added in new only, nothing is repeated and old minus deleted plus added has exactly the pairs of new, if and only if old members with one key have one pair and so have an old member and the first new one with its key |
| Panel.CompareUserList | node/user.go:62-83 | the same exact condition for panel users whose new list repeats no (UUID, speed) pair |
| Panel.OneLengthSees | node/user.go:62-83 | UUIDs of one length meet it |
| Panel.KeysCanCollide | node/user.go:65-72 | two users with UUIDs of different lengths whose change the diff does not see |
| Limiter.DetermineSpeedLimit | limiter/dynamic.go:20-38 | the smallest non-zero limit, zero only when both are |
| Limiter.Limiter.constructor | limiter/limiter.go:44-72 | a new limiter's tables are those of storing the users one after another |
| Limiter.Limiter.UpdateUser | limiter/limiter.go:90-113 | all deletions come before all additions, over five linked maps |
| Limiter.Limiter.CheckLimit | limiter/limiter.go:126-200 | verdict and new tables, with expiry, trimming of mapped addresses, store-first-take-back device counting and bucket reuse |
| Limiter.Limiter.CountDevice | limiter/limiter.go:153-186 | when exactly an address is refused, in terms of the alive list, and that it leaves every table as it was then, although it was stored first |
| Limiter.Limiter.GetOnlineDevice | limiter/limiter.go:202-220 | each online (user, IP) pair gives one entry, the online table is emptied, and the table of remembered IPs is what the visiting order leaves |
| LimiterFields.RefusedExactly | limiter/limiter.go:135-185 | a call is refused if and only if the user is unknown, or it is counted, from an IP neither online for the user nor remembered, the device limit is positive and the panel's count for the uid is there and at or above it |
| LimiterFields.OnlineExactly | limiter/limiter.go:153-186 | an admitted, counted IP that is new to the user is entered under the uid, and forgotten if it was remembered under that uid; otherwise neither table changes |
| LimiterFields.ExpiryExactly | limiter/limiter.go:135-149 | a dynamic limit past its time is dropped, and the user with it if it has no other limit; nothing else of the registered users changes |
| LimiterFields.RateExactly | limiter/limiter.go:188-199 | the bucket has 125000 bytes per second for each megabit of the smallest limit in force, unless one is cached, and there is none when all are zero |
| LimiterFields.MappedIsTrimmed | limiter/limiter.go:128 | an IPv4 address mapped into IPv6 counts as the IPv4 address, any other address as itself |
| LimiterFields.UpdateExactly | limiter/limiter.go:90-113 | what an update leaves in each of the seven tables, the alive counts of deleted ids included |
| LimiterRuns.RejectionChangesNothing | limiter/limiter.go:150-185 | when exactly a call is refused, and that it leaves online IPs, remembered IPs and buckets alone |
| LimiterRuns.DeviceCapHolds | limiter/limiter.go:153-186 | while the panel's count for a user is at or above a positive device limit, any run of calls by anyone puts only IPs online for them that were online or remembered at its start |
| LimiterRuns.ReportConserves | limiter/limiter.go:202-220 | a report lists exactly the online pairs, and remembers exactly their IPs, each under the uid of a user that had it online |
| LimiterRuns.AdmittedAfterReport | limiter/limiter.go:126-220 | from creation on, after any diff-fed run: an IP that a report lists for one user only is admitted for them in every run of calls, alive-list changes and updates naming others up to the next report, whatever the device limit |
| LimiterRuns.RunKeepsOwned | limiter/limiter.go:126-220 | over every diff-fed run each online IP is held by a registered user under that user's present uid |
| LimiterRuns.CheckKeepsCoherence | limiter/limiter.go:188-199 | on coherent tables an admitted call gets the bucket that the current limits ask for, and none exactly when both are zero |
| LimiterRuns.UpdateKeepsCoherence | limiter/limiter.go:90-113 | an update keeps the bucket cache coherent if and only if each added user whose bucket survives still has its rate |
| LimiterRuns.DiffKeepsCoherence | limiter/limiter.go:90-113 | updates made by the list diff always do |
| LimiterRuns.UpdateKeepsSynced | limiter/limiter.go:90-113 | a diff takes the limiter's users, speed limits and ids from the old list to the new one if and only if no user that keeps its UUID and speed has changed its id |
| LimiterRuns.DeviceLimitChangeIsMissed | node/user.go:65-72 | two lists that differ in one device limit, for which the diff is empty and the limiter keeps the old limit |
| LimiterRuns.DeviceLimitsFollow | limiter/limiter.go:90-113 | it takes the device limits along if and only if no user that keeps its UUID and speed has changed its own |
| LimiterRuns.RunKeepsAll | limiter/limiter.go:90-220 | over every run of calls, reports, alive-list changes and diff-fed updates the tables follow the list and no bucket is stale |
| LimiterRuns.AdmittedRateIsCurrent | limiter/limiter.go:126-200 | from creation on, an admitted call gets the rate of the node's limit and the user's limit in the latest list |
| LimiterSolo.SoloCallIsCheck | limiter/limiter.go:153-186 | the map operations of a call, with no other call in between, come to the verdict and the tables of CheckLimit |
| LimiterSteps.ReportedStaysAdmitted | limiter/limiter.go:153-186 | from the state after a report on, in every interleaving of one user's calls whose deletions of the user's entry are harmless, no call from a listed IP is rejected |
| LimiterSteps.ReportedIsExact | limiter/limiter.go:153-186 | from the state after a report on, at the device limit: a run has only harmless deletions if and only if after none of them a continuation without further deletions rejects the listed IP, and then the run itself never rejects it |
| LimiterSteps.HarmlessIsExact | limiter/limiter.go:153-186 | the same equivalence from any state that keeps the IP and has not rejected it |
| LimiterSteps.SequentialStaysAdmitted | limiter/limiter.go:153-186 | from the state after a report, when the calls of the user do not overlap, no call from a listed IP is ever rejected |
| LimiterSteps.WipeKeeps | limiter/limiter.go:178-185 | such a deletion keeps the IP if and only if it is still remembered and no call from it is under way |
| LimiterSteps.HarmfulRejects | limiter/limiter.go:178-185 | at the device limit, after any other one some continuation rejects a call from the IP |
| LimiterSteps.ListedIpCanBeRejected | limiter/limiter.go:153-186 | a run from the report on in which the listed IP is first admitted and then rejected |
| Report.GroupOnline | node/user.go:35-46 | the grouped map keeps, with multiplicity, exactly the entries of users without a traffic row below the threshold |
| Report.Filter | node/user.go:37-41 | entries of users below the threshold go, the others stay with their multiplicity |
| Report.EntriesCount | limiter/limiter.go:205-217 | an entry occurs once for each user that has the IP online under that uid |
| Report.ReportOnline | node/user.go:25-56 | one cycle tells the panel of each (uid, IP) once for each user holding it, unless the uid is below the threshold, sends nothing when nobody is online, and empties the online table |
| Core.LinkManager.CloseAll | core/xray/app/dispatcher/linkmanager.go:19-46 | the loop ends, closes each link once and interrupts its reader, although each close deletes from the map being iterated |
| Core.Xray.OpenLink | core/xray/app/dispatcher/default.go:391-423 | a new link is entered in its user's manager, made if there is none, and no other link changes |
| Core.Xray.DelUsers | core/xray/user.go:32-58 | users are removed up to the first refusal: their tags leave the inbound, the uids, the node's counters and the link managers, whose links are all closed; no other entry of any table changes |
| Core.OtherUsersKept | core/xray/user.go:40-56 | with UUIDs free of the separator the removed tags are those of the named users on that node and no other |
| Core.WithoutMore | core/xray/user.go:40-56 | removing users one after another is removing them at once |
| Core.Xray.AddUsers | core/xray/user.go:96-133 | when exactly it succeeds; users are added up to the first refusal, on this node only, and the uids of all of them are entered even then |
| Core.Xray.Harvest | core/xray/user.go:66-87 | undisturbed, exactly the known users above the threshold are reported, once and in full, a resetting pass leaves zeros for them, and heavy counters without a uid are dropped |
| Core.Xray.GetUserTrafficSlice | core/xray/user.go:60-94 | the same for the node's counters, with every other node untouched |
| Controller.Controller.Start | node/controller.go:43-95 | a start that reports no error leaves inbound, limiter and uids in step with the list, the limiter registered and the node's report threshold set; nothing but a failure or an empty list prevents one |
| Controller.Controller.NodeInfoMonitor | node/task.go:52-222 | a failed pull changes nothing; a tick in step that brings users, with nothing refused or failing, leaves exactly their tags in the inbound and their list, and for an unchanged node applies a diff of the two lists; the limiter's new tables, registration, tag and list in every case; an unnamed controller's limiter follows the list whatever is refused; a controller in step stays so if and only if it is unnamed, its node did not change or the (UUID, speed) pairs stay; inbounds, uids and counters of other nodes are untouched in any case |
| Controller.LatestIsLast | node/task.go:97-222 | the list after a run is that of the last tick that brought one: no request failed, and it was not empty or came with a changed node |
| Controller.NamedNodeFallsBehind | node/task.go:99-106 | a one-user list whose speed changes together with a named node |
| Schedule.Tasks.NodeInfoMonitor | node/task.go:52-228 | a tick that brings users leaves their list and their tags in the inbound; the tasks change when a changed node is up again, and not otherwise |
| Schedule.Tasks.Renew | node/task.go:153-165 | the monitor's interval becomes the pull interval unless that is zero, the report's becomes the pull interval too when the push interval is not zero and new; just the tasks whose interval was new are closed and started |
| Schedule.Tasks.Start | node/task.go:13-28 | both tasks start with the node's intervals |
| Schedule.ReportRestartsAgain | node/task.go:160-164 | a report task once restarted is restarted by every further change of the node if and only if pull and push intervals differ |
| Schedule.RestartOverlaps | node/task.go:154-159 | a restart from inside Execute leaves one live loop more, so at least two |
| Controller.Controller.NodeTagInjective | node/controller.go:125-127 | nodes of one panel with different type or id have different tags |
| Controller.Controller.NodeTagInText | node/controller.go:125-127 | the text of one such tag |
| Controller.Controller.ReportDevices | node/user.go:25-34 | a device report hands on the online pairs, empties the online table and keeps the limiter in step |
| Controller.Controller.Rebuild | node/task.go:80-152 | the new limiter is built from the new list under the new tag and registered, the old registration stays; a rule or certificate failure leaves the node without inbound and its uids alone; the inbounds of other nodes are untouched |
| Controller.Controller.ReplaceUsers | node/task.go:178-222 | a refusal leaves list and limiter as they were, success takes list, limiter and core to the new list |
| Controller.Controller.ChangeCoreUsers | node/task.go:179-204 | without a refusal the deleted users are gone from every table and the added ones are in; other nodes' inbounds and counters are untouched in any case |
| Controller.CoreFollowsDiff | node/task.go:178-204 | deleting and then adding along a diff takes the inbound's users and the uids from the old list to the new one |
| Controller.SyncedToOther | node/task.go:99-106 | tables of one list are those of another if and only if the lists have the same (UUID, speed) pairs |
| Controller.KeptLimiterSynced | node/task.go:99-110 | the same for a limiter that is kept across a node change, with its bucket cache |
| Controller.Controller.Connect | core/xray/app/dispatcher/default.go:373-390 | the limiter found under the node's tag is the controller's, and on a controller in step only listed users are admitted, at the rate that the list asks for |
| Controller.VerdictFollowsList | limiter/limiter.go:126-200 | the same, on the limiter's tables |
| Controller.Controller.HandleAll | node/task.go:52-228 | over every sequence of ticks, connections and reports the limiter stays in step whatever the core refuses, unless a named controller's node changes; when nothing is refused the list is that of the last tick that brought one, and all replicas stay in step with it up to exactly the first tick that changes a named controller's node together with the (UUID, speed) pairs of its list |
| Traffic.TrafficIsConserved | core/xray/user.go:60-94 | for every user, direction and interleaving of any number of harvests: bytes added, and once more those taken again after another harvest took them, are those harvested, in hand, in live and in detached counters, lost between a load and its store, or taken for a user without uid; so harvested never exceeds added plus doubled |
| TrafficRuns.SoloIsExact | core/xray/user.go:66-75 | with one harvest at a time harvested never exceeds added, the bytes lost are those that the user's cells take in between a load and its zero-store, and nothing is lost if and only if there is no such byte |
| TrafficRuns.SoloLoses | core/xray/user.go:66-75 | the same from any sound state on: losses grow by just those bytes, and nothing is taken twice |
| TrafficRuns.UnstruckLosesNothing | core/xray/user.go:66-75 | without such a store nothing is lost, however many harvests there are |
| TrafficRuns.BytesCanBeLost | core/xray/user.go:69-75 | a run that loses three bytes |
| TrafficRuns.BytesCanBeTakenTwice | core/xray/user.go:62-75 | a run of two harvests that reports ten bytes of five |
| TrafficTwice.TwiceIsExact | core/xray/user.go:62-75 | for any number of harvests, nothing is taken twice if and only if no harvest that has loaded bytes stores zero into a cell after another such harvest that loaded between the same two zeros; then harvested never exceeds added |
| TrafficTwice.RunRepeats | core/xray/user.go:62-75 | the same from any sound state on, with marks that agree with it |
| TrafficTwice.MarksFor | core/xray/user.go:62-75 | every sound state has such marks |
| Traffic.StepBalances | common/counter/traffic.go:21-74 | each atomic operation keeps the balance |
| Traffic.RunBalances | core/xray/user.go:60-94 | so does every run of them |
| TrafficRuns.RunKeepsRows | core/xray/user.go:66-87 | over every run each harvest has at most one row for a user, above the threshold and under the uid that the user has meanwhile |
| TrafficCode.Counters.GetUserTrafficSlice | core/xray/user.go:60-94 | the harvest, with any adds, new counters, deletions and other harvests between its atomic operations, is a run of the machine that hands over its own rows, and it misses a key of the map only if the map was without it at some time |
| TrafficCode.Counters.HarvestStorage | core/xray/user.go:66-87 | one round of Range visits its key, ends between two rounds, and hands on the slice as it was or with one row more, above the threshold and under the uid that the user has then, whatever happens meanwhile; undisturbed, it reports the whole counters of a known user above the threshold, drops the counter of an unknown one, and leaves zeros if it resets |
| TrafficCode.Counters.AddRow | core/xray/user.go:75-86 | a user with a uid gets a row with the loaded bytes; one without is left without a counter, and no other counter goes |
| TrafficCode.Counters.DeleteAndReturn | core/xray/user.go:47-50 | a user that is deleted and comes back counts from zero in a storage of its own, and the old storage keeps its bytes |
| TrafficCode.Counters.GetCounter | common/counter/traffic.go:21-30 | one storage for a user as long as it is in the map, a new one at zero otherwise |
| TrafficCode.Counters.Add | common/counter/xraytraffic.go:23-25 | an add through a pointer reaches one cell of that storage, in the map or not, and nothing else |
| TrafficCode.Counters.Delete | common/counter/traffic.go:62-64 | a deleted counter leaves the map, no other does, and every storage keeps its bytes |
| TrafficCode.TracedConserves | core/xray/user.go:60-94 | in every state the code reaches the bytes of every user are conserved, and some are taken twice exactly when the run repeats; with one harvest at a time each is reported at most once and lost exactly at a strike |
| Task.ChannelsStayConsistent | common/task/task.go:16-64 | in every interleaving `running` is true exactly when the current stop channel is open, and every superseded channel is closed |
| Task.StepKeepsChannels | common/task/task.go:16-64 | a step panics exactly when an Execute fails after the task was stopped |
| Task.NeverFailingNeverPanics | common/task/task.go:26-52 | without failing Executes no channel is closed twice |
| Task.LoopsAreBounded | common/task/task.go:26-52 | from any consistent state, live loops grow by no more than the effective Starts made while a loop is outside its select |
| Task.LoopsOfRun | common/task/task.go:26-52 | from the beginning, live loops are at most one more than those Starts |
| Task.OverlapAdds | common/task/task.go:16-26 | each such Start adds a live loop beside one that is live |
| Task.SingleUnlessOverlap | common/task/task.go:16-64 | a run keeps to one live loop if and only if it makes no effective Start while a loop is outside its select |
| Task.RestartAddsLoop | node/task.go:154-165 | Close and Start from inside Execute leave the old loops running beside the new one |
| Task.BoundIsReached | node/task.go:154-165 | the bound is attained for every number of overlapping Starts |
| TaskCode.Task.Start | common/task/task.go:16-55 | starting a running task does nothing, otherwise it makes a new open channel and one goroutine |
| TaskCode.Task.Close | common/task/task.go:57-64 | closing closes the current channel once, and nothing when stopped |
| TaskCode.Task.Goroutine | common/task/task.go:26-52 | the goroutine, with anything that callers and other goroutines do between its operations, is a run of the machine; without a panic its own steps are those of its script: an Execute if it runs first, a select and an Execute for every turn that the timer wins, up to the first that the channel wins or that fails; on such a turn it leaves exactly when the channel it has read is closed |
| TaskCode.Task.Turn | common/task/task.go:37-51 | one turn of the loop: a select, then an Execute exactly when the timer wins it |
| TaskCode.ExecutesPerTurn | common/task/task.go:26-52 | Execute runs once for each turn that the timer wins before the loop ends, and once more if it runs first |
| TaskCode.Task.Return | common/task/task.go:43-51 | a failed Execute stops the task and closes its channel, with a panic if it was stopped; another one changes neither |
| TaskCode.Task.RunExecute | common/task/task.go:43-51 | the goroutine goes on if and only if Execute did not fail and nothing panicked; after a failure without panic the task is stopped, its channel closed and the goroutine gone |
| TaskCode.TracedProperties | common/task/task.go:16-64 | in every state the code reaches the channel is open exactly while the task runs, loops are bounded, and there was no panic unless an Execute failed |
| Sniff.Sniffer.Sniff | core/xray/app/dispatcher/sniffer.go:58-82 | the answer is the result of the first entry for content and this network whose probe has one; else no clue, with just the unsure ones of those entries kept in order; else unknown content, with the list as it was |
| Sniff.RoundByPosition | core/xray/app/dispatcher/sniffer.go:58-82 | by position in the list: the first probe for content and this network with a result gives it; otherwise those that answered no clue are kept, in order, or the content is unknown and the list stays |
| Sniff.MetaRoundByPosition | core/xray/app/dispatcher/sniffer.go:84-109 | the same for metadata probes, with every content probe kept |
| Sniff.Verdict | core/xray/app/dispatcher/sniffer.go:71-81 | only a result, no clue or unknown content can come out, never need-more-data |
| Sniff.Sniffer.SniffMetadata | core/xray/app/dispatcher/sniffer.go:84-109 | the same for metadata entries asked about no bytes, with content entries kept |
| Sniff.PruningIsInvisible | core/xray/app/dispatcher/sniffer.go:58-82 | after a round without result the pruned list answers each longer payload as the whole list, for probes that stay with a failure |
| Sniff.PrunedRoundsAgree | core/xray/app/dispatcher/sniffer.go:58-82 | so it does after any number of rounds on growing payloads |
| Sniff.UnstableProbeIsMissed | core/xray/app/dispatcher/sniffer.go:66-79 | any content probe that recovers from a failure is answered differently once pruned, beside some stable probe |
| Sniff.StableIsExact | core/xray/app/dispatcher/sniffer.go:58-82 | a content probe can be pruned beside every stable probe if and only if it stays with its failures |
| Sniff.MetadataIsSeparate | core/xray/app/dispatcher/sniffer.go:84-109 | metadata sniffing changes no answer about content |
| SniffStream.CounterReader.ReadMultiBuffer | core/xray/app/dispatcher/countreader.go:17-37 | a read splits what is unread and counts just the bytes it hands on; bytes that come with an error are dropped uncounted |
| SniffStream.CachedReader.Cache | core/xray/app/dispatcher/default.go:44-59 | the stream is unchanged but for bytes that came with an error, the payload is the front of the cache up to the buffer's size, and each byte handed out or cached is counted once |
| SniffStream.CachedReader.ReadMultiBuffer | core/xray/app/dispatcher/default.go:61-90 | a read hands over the whole cache, or reads on when there is none, and the stream stays in order |
| SniffStream.CachedReader.Run | core/xray/app/dispatcher/default.go:44-90 | over every run of looks and reads, delivered, cached and unread bytes make up the original stream if and only if no byte came with an error, and the counter grows by what is delivered and cached |
| SniffStream.SniffRound | core/xray/app/dispatcher/default.go:482-506 | one round on the pruned list answers as the whole list would |
| SniffStream.SniffContent | core/xray/app/dispatcher/default.go:478-512 | at most two looks whatever the probes do, the stream untouched, and the result of the loop that never prunes |
| SniffStream.TwoLooks | core/xray/app/dispatcher/default.go:478-512 | what the loop answers from its first and second look, each at up to 32767 cached bytes, the second only within 200 milliseconds |
| SniffStream.UnprunedWithoutMetadata | core/xray/app/dispatcher/default.go:472-512 | metadata sniffing before the loop does not change its result |
| SniffStream.SniffLink | core/xray/app/dispatcher/default.go:466-520 | metadata alone never looks at the stream; otherwise the answer is the content's when metadata has none, the metadata's when the content has none, and both composed when both have one |

## Left out

- Traffic: counters are unbounded; the wrap-around of 64-bit cells is not modelled.
- Limiter: each call of the class is one atomic step. Interleavings of admission calls are modelled for one user between two reports, with the alive count fixed; those inside GetOnlineDevice are not.
- Limiter: limits are unbounded integers, so an overflow of limit times 1000000 is not modelled.
- UpdateKeepsSynced: does not state the device limits; DeviceLimitsFollow says exactly when they follow.
- RunKeepsAll: assumes no dynamic speed limit; CheckLimit models their expiry, but the periodic job that would set them is built and never started (node/task.go:42-49).
- Rules: UpdateRule and the rule checks are a failure input only.
- Certificates, DNS, inbound and outbound options, fake DNS, routing and proxy protocols: opaque to this model.
- Failures of DelNode and AddNode end the process by a panic (node/task.go:90-96, node/task.go:134-140); ticks that panic are not modelled.
- The panel's ETags: a list is marked as seen when it is fetched (api/panel/user.go:89), so a list whose tick fails or is refused comes again only after it changes; here each answer is an input.
- Controller: a tick is one step and ticks never overlap, although a restart from inside the monitor's own Execute can leave two live monitor loops (`Schedule.RestartOverlaps`), whose ticks could then interleave.
- OpenLink: enters a link in one step, while the source loads a user's link manager and stores a new one separately (core/xray/app/dispatcher/default.go:392-396 and 198-202). Two first connections of a user at once can each store a manager; the earlier one is then out of the table, and DelUsers never closes the link in it.
- Several controllers over one core and one limiter registry, and Close of a controller.
- Users that leave while a node changes keep their entry in the core's uid map: DelNode does not clear it, and `CoreSynced` asks for the uids of the listed users only.
- Network errors of the reports and the traffic rows sent to the panel: the report model covers what is handed over.
- Interrupt of a cached reader, which drops its cache on purpose.
- Time: deadlines are numbers given by the round; waiting and token buckets are not modelled.
- The probes themselves (HTTP, TLS, BitTorrent, QUIC): any function from bytes to an outcome; contexts are left out.
- TrafficCounter.Reset, Len and the count getters, which the Xray path does not use, and `common/counter/conn.go`, which stores where it should add.
- The sing and hysteria2 copies of the user tables, of the same shape as Xray's.
