# A verified model of the Ignite server

Ignite serves note vaults from directories on disk. This project models the parts of its server
that keep state, or that compute something which can go subtly wrong, and proves what they
promise. `dafny verify dfyconfig.toml` checks everything.

The modules, by the part of the server they describe:

* **The live index** (`Keys`, `Vault`, `TreeWalk`, `Index`, `IndexSystem`, `IndexOverlap`,
  `IndexBoundaries`).
  A disk is a parent-closed map from component sequences to directories, files and symlinks; the
  index is a map from `/`-joined keys to entries. `BuildTree` is the parallel walk under an
  arbitrary schedule, `VaultIndex.ApplyPaths` the incremental update that also publishes events,
  `Reconcile` the full walk that replaces the snapshot. `IndexSystem` makes a protocol of them:
  the vault may change at any step, each change queues the paths the watcher reports, a batch is
  loaded, stat'ed path by path and stored, a full walk proceeds visit by visit, and subscribers
  replay the event log. `IndexOverlap` says what remains true when a full walk overlaps a batch.
  `IndexBoundaries` (with `SocketBoundaries`) holds, for each hypothesis of the main theorems, a
  situation in which only that hypothesis fails, reached from the start of a live index where a run is needed.
* **Delivery** (`Sockets`, `SocketBoundaries`). The event loop of one socket, the two broadcast
  rings that drop their oldest entries, the channel subscriptions, and what the client has
  received at any moment, lagging or not, up to the exact condition under which a client's tree
  is the tree of the vault.
* **Write-behind persistence** (`HeadlessSync`, `HeadlessEffects`). Any number of requests, each of which checks,
  changes memory under a write lock, lets the lock go, and then writes memory out under a read
  lock: the file is emptied, then filled, and either may fail without anyone noticing. The class
  holds the handlers, served one at a time; the machine interleaves their steps.
  `HeadlessEffects` says what each request does, vault by vault, in terms of its body.
* **The proxy** (`Addresses`, `Redirects`, `Base64`, `Proxy`). Address blocks by masks, the
  redirect loop over arbitrary replies, the streaming encoder, and the whole handler. Base64 is
  that of section 4 of RFC 4648, CIDR blocks those of section 3.1 of RFC 4632, mapped addresses
  those of section 2.5.5.2 of RFC 4291.
* **Paths and archives** (`Resolve`, `Archive`). Lexical resolution below a vault root, with Unix
  component rules, and the zip download of a directory.
* **Settings and vaults** (`Settings`, `Registry`). The validated partial merge with its early
  error return, the settings file, and the registry of vaults beside their directories, with
  every way the file operations can fail.

`Text`, `JsonValues`, `Sequences` and `Wrappers` hold what these share.

## Where the code and its promises part

* **A mirror can diverge without a file turning into a directory.** If a file is created and
  removed again within one batch, together with its directory, the log can say that it was
  created and never that it went, although every change is reported and the index ends up right
  (`IndexBoundaries.UndoneMidBatch`). For every run, `IndexSystem.MirrorEndsWith` says exactly
  when a mirror ends right: when every key was last told, or loaded, as it is. A change without
  an event may be made good by a later one (`IndexBoundaries.SilentYetRight`); that there is none
  is exactly what following the server at every step takes (`IndexSystem.MirrorKeepsUpExactly`),
  and in runs in which changes fall between batches it comes down to not meeting a file that
  became a directory (`IndexSystem.CalmRunTold`).
* **A lagging client is promised to recover, and it merely stays connected.** What it lost is
  made good only by a later event about the same key: its tree ends right exactly when every key
  whose last event was lost is right all the same (`Sockets.LaggingClientRecovers`;
  `Sockets.ClientEndsWith` for every run). One event too many, with nothing else going wrong, and
  a client lacks a file for good (`SocketBoundaries.LaggingClientEndsWrong`).
* **A change that was answered 200 can be lost in a crash even if no write ever fails.** A second
  request empties the file before it fills it (`HeadlessSync.LoginLostInACrash`); as long as writes
  succeed this is the only way (`HeadlessSync.AcknowledgedSurvives`). Failed writes are
  ignored by the code: then an acknowledged change is in the file exactly when a later write of
  that file left it whole (`HeadlessSync.KeptByAWholeWrite`), and `HeadlessSync.CrashExactly` says
  for every run when a crash keeps the change.
* **A rename reported by its two ends is applied correctly exactly when nothing lay below the
  renamed path** (`IndexBoundaries.RenameReportedByItsEnds`).
* **The comment on `reconcile` promises that the index can never silently diverge.** It holds
  when full walks and batches do not overlap and no batch is dropped. The one walk the server makes can overlap the
  first batches: then the walk can overwrite what a batch stored
  (`IndexBoundaries.WalkOverwritesABatch`), or a batch that was loaded from the empty tree can
  overwrite the whole walk (`IndexBoundaries.BatchOverwritesTheWalk`). Once the vault stands
  still, the index ends up right exactly when whichever of the two stores last has got nothing
  wrong that it does not still look at (`IndexOverlap.OverlapEndsRight`), and over every run the
  keys that can be wrong are known (`IndexOverlap.DivergenceIsOwed`). A batch that the watcher
  delivers as an error is dropped, and nothing makes up for it (`IndexBoundaries.DroppedBatch`).
* **Events go out before the snapshot is stored.** A client may subscribe at any moment; when
  no change goes without an event, its tree is the server's in the end exactly when a batch was stored before it loaded the snapshot, or a
  later event touches every key the snapshot lagged behind on
  (`IndexSystem.MirrorConvergesExactly`).
* **The list of hosts binds the first request only.** A reply may redirect off the list and is
  followed (`Proxy.RedirectLeavesTheList`); all requests stay on it exactly when no reply that was
  followed leads off it (`Proxy.StaysOnTheList`). Every hop is bound by the address check.
* **Resolution is idempotent, and keys resolve back, exactly when no backslash gets in the way.**
  A leading backslash is trimmed like a slash although it can begin a Unix file name, and the
  index writes every backslash as a slash (`Resolve.ResolveIdempotent`,
  `Resolve.ResolvedKeysRoundTrip`, `Keys.BackslashCollision`).
* **A settings write that fails after truncating the file loses what was saved before**, until
  the next success; a 400 in between does not mend it (`Settings.RestartLoadsMemory` gives the
  exact condition, `Settings.TornWriteLoses` a case).
* **The vault name limit is documented in characters and checked in bytes, and the documented
  pattern of device names stops at a line break where the code does not.** For every name,
  `Registry.ValidAgainstDocumented` says how code and rule relate; `con.` followed by a line
  break is refused by the code and not by the rule (`Registry.BrokenDeviceName`).
* **A vault creation that failed can be repeated exactly when the vault directory itself could
  not be made** (`Registry.HalfCreated`).
* **The baseline walk agrees with the index exactly when every link keeps its size**
  (`TreeWalk.BaselineRun`): it asks for what is behind a link, and the index does not.

## Assumptions

The tree of a vault is read through `symlink_metadata` on one disk per step. Names are text
without `/`, and apart from the lemmas about backslashes without `\`; every file name is valid
UTF-8. A snapshot is loaded and stored atomically. Broadcast channels are logs of which the newest
1024 entries can be read. In `HeadlessSync` what was serialised reads back as it was, and a file
that is empty or filled in part does not parse; removing a file is one step. Two requests may be
filling one file at once: a file that was emptied since a writer emptied it is whole when that
writer is through, or is not, as it happens. DNS, upstream replies and body chunks, `Url::join`,
the parsers of addresses and numbers, and the upper-casing of methods are arbitrary functions.
`Redirects.CredentialsStayHome` is about the header map the handler passes on; the HTTP library
(reqwest 0.12.28) itself turns user information in a URL, that of a redirect included, into an
Authorization header, and URLs have no user information here. The zip format stores names and
bytes faithfully. In `Settings` a torn write leaves something that does not parse.

## Model

| member | source | states |
|---|---|---|
| Keys.JoinInjective | server/src/index.rs:69-72 | two different paths never share a key |
| Keys.SubtreePrefix | server/src/index.rs:195-198 | `rel + "/"` starts a key exactly when `rel` names a strict ancestor of it, so a sibling such as `ab` or `a.md` is never taken for a descendant of `a` |
| Keys.KeyFaithful | server/src/index.rs:151-154 | a raw path can be read back from its key exactly when no component holds a backslash |
| Keys.BackslashCollision | server/src/index.rs:151-154 | two different files that share one key |
| Vault.ListsExactly | server/src/index.rs:74-97 | the tree of a disk is the only one with a key for each node but the root that says whether it is a directory, and otherwise its size, its modification time and its creation time, or the modification time where there is none |
| TreeWalk.BuildTree | server/src/index.rs:46-100 | under every schedule of visits and inserts the walk ends, with one entry for each node of the disk but the root, which describes it |
| TreeWalk.BaselineWalk | server/bench/ignis-walk-baseline.js:9-23 | the recursive walk adds exactly the kinds and sizes of everything below its directory, sizes behind links followed, in whatever order children are listed; it is abandoned exactly at a dangling link |
| TreeWalk.BaselineRun | server/bench/ignis-walk-baseline.js:25-29 | the sequential walk succeeds exactly when no link dangles, and then lists the same keys, kinds and sizes as the parallel one exactly when every link keeps its size |
| Index.VaultIndex.BuildLive | server/src/index.rs:249-286 | with no change meanwhile, a live index starts with the tree of the disk and an empty log |
| Index.VaultIndex.Reconcile | server/src/index.rs:291-293 | the snapshot becomes the tree of the disk; no event is published |
| Index.VaultIndex.ApplyPaths | server/src/index.rs:143-207 | the new snapshot and the appended events are those of the observations made path by path, each on the disk as it then is; every event announces one of them and fits the tree it falls on, and every observation that can be announced is, in order |
| Index.StepAnnounced | server/src/index.rs:176-203 | a stat sends the one event that says what was found and fits the tree, if there is one: a file or folder is created where none was, a file modified or anything deleted where it was |
| Index.KeysBelowRoot | server/src/index.rs:149-156 | the keys a batch is about are those of its paths strictly below the root |
| Index.BatchMeaning | server/src/index.rs:149-206 | on a still disk: a key of the batch takes its disk value, a key below a missing path of the batch is gone, every other key is unchanged |
| Index.BatchOrderIndependent | server/src/index.rs:149-206 | reordering or repeating the changed paths does not change the result |
| Index.Idempotent | server/src/index.rs:149-206 | applying the same observations of a still disk twice is applying them once |
| Index.BatchAgreesWithReconcile | server/src/index.rs:143-293 | the incremental update equals a full walk exactly when every stale key is in the batch or below a missing path of it |
| Index.StepReplay | server/src/index.rs:176-203 | one stat is reproduced by its own events exactly when it is neither a file that became a directory nor a missing path that is no key but has keys below it |
| Index.BatchEventsExact | server/src/index.rs:150-204 | replaying a batch's events over the old tree gives the new tree exactly when no path of the batch is a known file that is now a directory |
| Index.ReplayAgrees | server/src/index.rs:176-203 | the same events bring two trees together exactly when these agreed on every key that no event touches |
| Index.ReplayOverlap | server/src/index.rs:176-203 | replaying events that a tree already contains, together with the later ones, is harmless |
| IndexSystem.BatchIsApplyPaths | server/src/index.rs:143-207 | whatever happens while a batch runs, its working tree and its events are what `apply_paths` makes of the paths stat'ed so far on the disks they met |
| IndexSystem.NoSilentDivergence | server/src/index.rs:143-293 | over every run in which changes are reported, no batch is dropped and walks do not overlap batches, the tree to be published is wrong only at keys still queued or still to be stat'ed; once all are, the snapshot is a fresh walk |
| IndexSystem.MirrorKeepsUpExactly | server/src/index.rs:177-206 | a mirror follows the server at every step exactly when no step changes the tree without an event |
| IndexSystem.MirrorEventsFit | server/src/index.rs:176-203 | a mirror that replays the events of a run without silent stats has, at each event, what is announced as modified or deleted, and has not what is announced as created |
| IndexSystem.MirrorEndsWith | server/src/index.rs:143-310 | over every run, with silent stats, full walks, overlaps, dropped and unfinished batches: subscribe at any moment, load the snapshot at any later one, replay the whole suffix; the result is a given tree exactly when every key was last told, or loaded, as it is in that tree |
| IndexSystem.MirrorConvergesExactly | server/src/index.rs:177-310 | when no stat is silent, the result is the server's final tree exactly when a batch was stored before the load or every key the snapshot lagged behind on is touched by a later event |
| IndexSystem.MirrorConverges | server/src/index.rs:296-310 | in particular it always is for a client that subscribed between batches, although the snapshot may contain part of its events |
| IndexSystem.MirrorIsTheVault | server/src/index.rs:143-310 | on a live index past its first walk, with changes falling anywhere, silent ones included, the server ends with what a fresh walk of the vault returns, and so does a mirror exactly when every key was last told, or loaded, as it is |
| IndexSystem.ToldMirrorIsTheVault | server/src/index.rs:143-310 | when no stat is silent, that condition is the one about the moment of the load |
| IndexSystem.LiveIndexNoLoss | server/src/index.rs:249-286 | every run of a live index without overlap is in the state from which those results start once its first walk is done |
| IndexSystem.CalmRunTold | server/src/index.rs:176-206 | when changes fall between batches, every change is told exactly when no stat meets a file that became a directory |
| IndexSystem.CalmMirrorIsTheVault | server/src/index.rs:143-310 | after such a run without such a file, a client that subscribed between batches has the tree of the vault |
| IndexOverlap.WalkEndsRight | server/src/index.rs:46-293 | once the vault stands still, a walk in progress stores the right tree exactly when it has got nothing wrong so far, whatever the watcher does |
| IndexOverlap.BatchEndsRight | server/src/index.rs:143-207 | once the vault stands still, a batch in progress stores the right tree exactly when every key its tree is wrong about is still to be stat'ed or lies below a path found missing, whatever walks do |
| IndexOverlap.OverlapEndsRight | server/src/index.rs:143-293 | a walk and a batch in progress at once: the index ends up right exactly when the one that stores last does so by itself |
| IndexOverlap.DivergenceIsOwed | server/src/index.rs:143-293 | over every run in which changes are reported, overlaps and dropped batches included, the snapshot is wrong only at keys that are queued or owed: dropped, taken from the queue while a walk runs, or never repaired in the tree a batch was loaded from |
| IndexOverlap.SeparateOwesNothing | server/src/index.rs:249-293 | without overlap nothing is owed once no walk and no batch is in progress |
| IndexBoundaries.WarmStart | server/src/index.rs:249-286 | a live index left alone reaches the tree of the vault, with nothing queued |
| IndexBoundaries.RenameReportedByItsEnds | server/src/index.rs:150-204 | a rename of which only the two ends are reported is applied correctly exactly when nothing lay below the renamed path |
| IndexBoundaries.RecreatedBeforeItsStat | server/src/index.rs:157-198 | a directory deleted and recreated before its stat, reported alone, leaves its old children in the index |
| IndexBoundaries.UndoneMidBatch | server/src/index.rs:150-206 | a fully reported run without overlap or flip after which the index is right and a mirror still has a file that is gone |
| IndexBoundaries.SilentYetRight | server/src/index.rs:176-203 | a known file stat'ed as a directory and then found missing: the first stat is silent, and the events of both still reproduce both |
| IndexBoundaries.DroppedBatch | server/src/index.rs:261-270 | a batch delivered as an error leaves the index without a file of the vault and with nothing queued |
| IndexBoundaries.WalkOverwritesABatch | server/src/index.rs:249-293 | from the start of a live index, everything reported: the first walk overwrites what a batch stored, and the file is lost with nothing queued |
| IndexBoundaries.BatchOverwritesTheWalk | server/src/index.rs:249-293 | from the start of a live index, everything reported: a batch loaded from the empty tree overwrites the first walk, and the index holds one file of the whole vault |
| IndexBoundaries.NewFileInBatch | server/src/index.rs:143-157 | a live index reaches the moment before a batch looks at a new file |
| IndexBoundaries.SubscribedMidBatch | server/src/index.rs:191-206 | a client that subscribes between the stat of a new file and the store, and loads before the store, lacks the file after every continuation in which no later event is about it |
| Sockets.HandleControl | server/src/ws.rs:100-117 | a control message adds or removes exactly the channel it names; anything else changes nothing |
| Sockets.ServeSocket | server/src/ws.rs:46-96 | the loop handles its turns one by one up to the first that ends the connection |
| Sockets.ServedMeans | server/src/ws.rs:46-117 | told from the messages: the loop goes on exactly as long as its vault is there, the client is, and frames can be sent; it then has the channels whose latest `subscribe-channel` no `unsubscribe-channel` followed, and has sent a frame for each event, each beat, and each plugin message of its vault on such a channel |
| Sockets.ServedUntil | server/src/ws.rs:46-96 | where the connection ends it has sent the frames of the turns before, and sends no more |
| Sockets.RunIsServed | server/src/ws.rs:55-95 | in every interleaving with publishers, the connection fares as the loop does on the turns that reach it |
| Sockets.Forwarding | server/src/ws.rs:55-95 | texts sent are a subsequence of all those due: every event, and each plugin message for the vault whose channel's latest control before its receipt was a subscribe; without lag they are all of them, in order |
| Sockets.EventsArrive | server/src/ws.rs:58-68 | a socket that kept pace and has read everything has sent exactly the events published since it opened |
| Sockets.ClientEndsWith | server/src/ws.rs:46-96 | for every run of the server and every run of a socket, lagging or not: loading the snapshot at any moment after opening the socket and applying the event frames received gives a given tree exactly when, for every key, the last event about it got through and told it as it is, or was lost and what came through before is right all the same |
| Sockets.ClientSeesTheVault | server/src/ws.rs:46-96 | with nothing left to look at, a client ends with the tree of the vault under exactly that condition |
| Sockets.LaggingClientRecovers | server/src/ws.rs:58-68 | when no stat was silent and the load came late enough, lag alone decides: the client is right exactly when every key whose last event was lost is right all the same, and always when there is no such key |
| Sockets.PacedClientSeesTheVault | server/src/ws.rs:46-96 | without lag and silent stats, exactly when a batch was stored before the load or whatever the snapshot lagged behind is touched by one of its events |
| Sockets.CalmClientSeesTheVault | server/src/ws.rs:46-96 | with changes and the subscription between batches, no file turning into a directory, and no lag, it always does |
| SocketBoundaries.LaggingClientEndsWrong | server/src/ws.rs:58-68 | a diligent run whose events tell everything, and a client that misses one of 1025 events, stays connected, reads to the end, and lacks a file of the vault |
| HeadlessSync.HeadlessSync.New | server/src/headless_sync.rs:106-129 | token and states are loaded from their files; a missing or unreadable file means none |
| HeadlessSync.HeadlessSync.PersistToken | server/src/headless_sync.rs:143-156 | the token file holds the token in memory, or is gone; it is untouched when it cannot be opened or removed, and not whole when it cannot be filled |
| HeadlessSync.HeadlessSync.PersistStates | server/src/headless_sync.rs:158-164 | the state file holds the states in memory; it is untouched when it cannot be opened, and not whole when it cannot be filled |
| HeadlessSync.HeadlessSync.Login | server/src/headless_sync.rs:204-215 | memory, files and reply of a login served alone |
| HeadlessSync.HeadlessSync.Logout | server/src/headless_sync.rs:217-221 | memory, files and reply of a logout served alone |
| HeadlessSync.HeadlessSync.Setup | server/src/headless_sync.rs:235-272 | memory, files and reply of a setup served alone, with its four refusals in order |
| HeadlessSync.HeadlessSync.SetStatus | server/src/headless_sync.rs:280-288 | the status of a known vault is set, its error cleared when it starts running; an unknown vault changes nothing |
| HeadlessSync.HeadlessSync.Start | server/src/headless_sync.rs:290-304 | memory, files and reply of a start served alone |
| HeadlessSync.HeadlessSync.Stop | server/src/headless_sync.rs:306-318 | memory, files and reply of a stop served alone |
| HeadlessSync.HeadlessSync.Unlink | server/src/headless_sync.rs:320-328 | memory, files and reply of an unlink served alone |
| HeadlessSync.AloneOnTheMachine | server/src/headless_sync.rs:204-328 | with no other request writing, some run of the machine serves a request without interruption, with exactly the effect and reply of its handler, whatever its writes come to |
| HeadlessEffects.LoginMeans | server/src/headless_sync.rs:204-215 | a login with a token that is not empty makes it the token, with its e-mail address and name, and writes it out; any other is refused; no vault is touched |
| HeadlessEffects.LogoutMeans | server/src/headless_sync.rs:217-221 | a logout forgets the token and removes its file; no vault is touched |
| HeadlessEffects.SetupMeans | server/src/headless_sync.rs:235-272 | the exact condition of each of the four refusals; otherwise the vault named in the body, and no other, is stopped, never synced, without error, with what the body says or the defaults |
| HeadlessEffects.StartStopMean | server/src/headless_sync.rs:280-318 | the vault named, and no other, has the status running or stopped, without error once running, and is otherwise as it was; 404 exactly when it is not set up |
| HeadlessEffects.UnlinkMeans | server/src/headless_sync.rs:320-328 | the vault named, and no other, loses its state and its log |
| HeadlessEffects.StepMakes | server/src/headless_sync.rs:204-328 | a step of the machine changes token or states only where a request makes its change, and then vault by vault as that asks |
| HeadlessEffects.HistoryMakes | server/src/headless_sync.rs:204-328 | over every run, each change of the states is what the body of some request that arrived asks for, and touches no vault but the one it names |
| HeadlessEffects.UnnamedVaultsStay | server/src/headless_sync.rs:204-328 | however requests overlap, a vault that none of them names keeps its state and its log |
| HeadlessSync.FileLagsOnlyBehindPending | server/src/headless_sync.rs:143-328 | for any number of requests in any interleaving of their steps, emptying and filling a file apart, with no write failing: a file differs from memory only while some request is between its change and the end of its write |
| HeadlessSync.QuietRestart | server/src/headless_sync.rs:106-164 | with no write failing and no request in between, a restart loads exactly the token and states that memory held |
| HeadlessSync.CrashExactly | server/src/headless_sync.rs:106-328 | over every run, failed writes included: after a crash a restart loads a value held at or after an acknowledged change exactly when the file is whole and was written whole since, or what it loads happens to be such a value |
| HeadlessSync.AcknowledgedSurvives | server/src/headless_sync.rs:204-328 | with no write failing, a crash keeps an acknowledged change exactly when the file is not torn or the default is a value held since; a torn file means that some request is filling it |
| HeadlessSync.KeptByAWholeWrite | server/src/headless_sync.rs:143-164 | over every run, failed writes included: a change gets into the file exactly when some later write of its store leaves the file whole |
| HeadlessSync.LoginLostInACrash | server/src/headless_sync.rs:143-215 | no write fails, one login is answered, a second has emptied the file: a crash comes back logged out, a value never held since |
| HeadlessSync.ChangesAreSerial | server/src/headless_sync.rs:268-326 | overlapping requests amount to a serial history: each value of the states is the change of exactly one request applied to the value before it |
| Base64.EncodeStream | server/src/proxy_routes.rs:329-352 | for every split into chunks the carried encoder returns the padded encoding of the concatenation, decoding to it; it succeeds exactly when no chunk fails and the total is at most 50 MiB, and reports the first chunk that stops it |
| Base64.EncodeMeans | server/src/proxy_routes.rs:333-352 | the i-th character stands for the i-th six bits of the bytes, in the order of the alphabet of the standard, and padding completes the last four |
| Base64.EncodeInPieces | server/src/proxy_routes.rs:343-351 | encoding a multiple of three bytes without padding and then the rest is encoding the whole |
| Base64.DecodeEncode | server/src/proxy_routes.rs:333-352 | decoding an encoding gives back the bytes |
| Base64.EncodeDecode | server/src/proxy_routes.rs:261-267 | a text that decodes is the encoding of what it decodes to |
| Redirects.AddrOk | server/src/proxy_routes.rs:187-208 | a URL passes exactly when it has a host that resolves to some addresses, each public or listed; it fails with 400 without a host, 502 without addresses, 403 for an address that is neither |
| Redirects.ProxyRequests | server/src/proxy_routes.rs:280-322 | the loop refines the recursive definition of following redirects, with outcome and requests |
| Redirects.RequestsChecked | server/src/proxy_routes.rs:282-322 | over all replies: at most six requests, each to an http or https URL whose host had just resolved to addresses that are all public or listed, and led to by the reply before; an answer is the reply to the last one, no redirect or one that cannot be followed or one too many; a failure is a request without reply or the check of the next URL |
| Redirects.CredentialsStayHome | server/src/proxy_routes.rs:304-307 | every request has exactly the caller's headers, with their values, but for Authorization and Cookie from the first request to another scheme, host or port on |
| Redirects.MethodsDegradeToGet | server/src/proxy_routes.rs:308-313 | every request uses the caller's method, or GET exactly when an earlier reply was 303, or 301 or 302 and the method was not HEAD |
| Proxy.GatheredAt | server/src/proxy_routes.rs:174-258 | headers kept in either direction: exactly the names that are kept and have a textual value, each with its last one; from the caller all but Host and Content-Length |
| Proxy.ProxyHandler | server/src/proxy_routes.rs:210-360 | admission, redirect loop and encoder compose: the refusals in order, and the relayed answer with status, headers and body |
| Proxy.ProxyFromEnv | server/src/proxy_routes.rs:55-208 | with the allow list of the environment, every request goes to a host that had just resolved to addresses that are public or admitted by an entry of the list |
| Proxy.RequestsMean | server/src/proxy_routes.rs:210-322 | every request of a call has its body as text or decoded, its method or GET after a reply that calls for it, and of its headers the last textual one of each name but Host and Content-Length, and but Authorization and Cookie once another site was asked |
| Proxy.RefusalMeans | server/src/proxy_routes.rs:210-360 | the refusals before any request, in order, each exactly when it applies; every other refusal is due to the lookup or reply the loop broke off at, or to a body that fails or is too large |
| Proxy.RequestsReachable | server/src/proxy_routes.rs:282-285 | however a call is answered, no request was made to a host with an address that is neither public nor listed |
| Proxy.RelayedAnswer | server/src/proxy_routes.rs:210-360 | a relayed answer has the status and headers of the reply to the last of one to six such requests, the first to the URL asked for on a listed host where a list is kept, and a text that decodes to that reply's whole body of at most 50 MiB |
| Proxy.StaysOnTheList | server/src/proxy_routes.rs:226-318 | in allow-list mode the first request goes to a listed host, and all do exactly when no reply that was followed redirects off the list |
| Proxy.RedirectLeavesTheList | server/src/proxy_routes.rs:291-318 | a first reply that redirects off the list to a host that passes the address check is followed there |
| Addresses.BlockByDivision | server/src/proxy_routes.rs:90-113 | for every prefix length 0 to 32, `value & mask == network` holds exactly when value and base agree after division by 2^(32-p); the shift is never by 32 |
| Addresses.PrivateIsTheBlocks | server/src/proxy_routes.rs:125-136 | the octet tests are the union of the seven masked blocks |
| Addresses.PrivateV6 | server/src/proxy_routes.rs:137-150 | an IPv6 address that is some mapped IPv4 address is judged as that one; any other is private exactly in fe80::/10 and fc00::/7, as loopback or unspecified |
| Addresses.EntryMeans | server/src/proxy_routes.rs:84-98 | an entry without a slash admits the address it parses to; one with a slash the IPv4 addresses that share that many leading bits, at most 32, with the base before the first slash |
| Addresses.ProxyConfig.AddEntry | server/src/proxy_routes.rs:84-98 | one entry adds exactly the address or block it names, an unparsable one nothing |
| Addresses.ProxyConfig.SetAllowPrivate | server/src/proxy_routes.rs:79-100 | afterwards an address is listed exactly when it was or some entry admits it, so order and repetition do not matter and more entries never list less |
| Text.ListConcat | server/src/settings_routes.rs:60-66 | the items of a list are those before a comma, then those after it |
| Text.ListItem | server/src/settings_routes.rs:60-66 | without a comma there is one item, the text without the space around it, or none if nothing is left |
| Addresses.ProxyConfig.AllowlistedAddr | server/src/proxy_routes.rs:102-115 | the scan finds an address exactly when it is listed |
| Addresses.ProxyConfig.AddrAllowed | server/src/proxy_routes.rs:118-120 | public addresses pass, private ones exactly when listed |
| Resolve.ResolveInVault | server/src/fs_routes.rs:62-86 | the push/pop loop with its depth counter refines the pure normaliser below the root |
| Resolve.TrimLeadMeans | server/src/fs_routes.rs:63 | exactly the leading slashes and backslashes are dropped |
| Resolve.Resolution | server/src/fs_routes.rs:62-86 | of the parts of the text between slashes, empty ones and `.` left out: resolution fails exactly when some prefix has more `..` than others; otherwise it is the root followed by the parts that no later `..` cancels |
| Resolve.ResolveIdempotent | server/src/fs_routes.rs:62-86 | resolving the relative result again gives the same path exactly when it does not start with a backslash |
| Resolve.ResolveComposes | server/src/fs_routes.rs:62-86 | resolving `a/b` is resolving `b` from where `a` leads, for `b` that resolves on its own and has no leading backslash |
| Resolve.KeysResolve | server/src/index.rs:69-72 | every key of a vault's tree resolves to the path that produced it |
| Resolve.ResolvedKeysRoundTrip | server/src/fs_routes.rs:62-86 | the key of a resolved path below the root resolves back to it exactly when no name on it holds a backslash |
| Archive.ZipWalk | server/src/fs_routes.rs:478-501 | the walk adds exactly the regular files below its directory, each once under its own name, and succeeds exactly when everything it opens can be read |
| Archive.ZipDirectory | server/src/fs_routes.rs:467-477 | the archive of a directory holds exactly its regular files, with distinct names, or fails exactly when something cannot be read |
| Archive.ArchiveMatchesIndex | server/src/fs_routes.rs:478-501 | `prefix/k` is in the archive exactly when `k` is a file key of the index of that directory and no symlink |
| Archive.UnpackRestores | server/src/fs_routes.rs:438-501 | unpacking restores every regular file at its place with its bytes, and nothing else |
| Settings.CleanList | server/src/settings_routes.rs:161-174 | a list is taken, trimmed item by item, exactly when every item is a string with something left |
| Settings.MergeClean | server/src/settings_routes.rs:120-182 | the field-by-field merge with its early returns is the merge of the keys in order |
| Settings.UpdateMeans | server/src/settings_routes.rs:120-182 | name by name: which values an update may give, which bad one is reported, and that each setting takes the value under its own name, list items trimmed |
| Settings.MergeMeaning | server/src/settings_routes.rs:120-182 | a merge takes over exactly the given keys before the first bad one, reports that one, and leaves all else alone |
| Settings.MergeValid | server/src/settings_routes.rs:120-182 | settings stay valid even when the merge fails half way |
| Settings.PersistedMeans | server/src/settings_routes.rs:185-197 | the file holds the eight settings a client may change, each under its own name, and nothing of the environment |
| Settings.StartMeans | server/src/settings_routes.rs:42-95 | without a file: the default numbers, and what each variable of the environment says |
| Settings.LoadPersisted | server/src/settings_routes.rs:83-197 | in the same environment, loading what was persisted is the identity on valid settings |
| Settings.SettingsState.Loaded | server/src/settings_routes.rs:83-105 | defaults, then environment, then as much of the file as is good |
| Settings.SettingsState.Persist | server/src/settings_routes.rs:185-197 | the file after a write that succeeds, is refused, or tears it |
| Settings.SettingsState.PostSettings | server/src/settings_routes.rs:203-220 | memory, file and reply of one update: memory changes only after a write that succeeded |
| Settings.PostMeans | server/src/settings_routes.rs:203-220 | an update is refused exactly when its merge is, and taken exactly when the write succeeds too; memory and file then change together, and otherwise only a torn write leaves a trace |
| Settings.RestartLoadsMemory | server/src/settings_routes.rs:83-220 | after any serial run settings are valid, and a restart loads memory exactly when the last write to touch the file did not tear it or memory is what the environment alone gives |
| Settings.NoTearNoLoss | server/src/settings_routes.rs:185-220 | without torn writes that condition always holds |
| Settings.TornWriteLoses | server/src/settings_routes.rs:185-220 | a torn write is answered 500 and leaves memory alone, yet a restart loses what an earlier success saved |
| Registry.ReservedMeans | server/src/vault_routes.rs:144-150 | a name is reserved exactly when what stands before its first dot is one of the 22 device names, in whatever case |
| Registry.ReservedAgainstPattern | server/src/vault_routes.rs:129-151 | a name matches the documented pattern exactly when the code finds it reserved and no line break follows its first dot |
| Registry.BrokenDeviceName | server/src/vault_routes.rs:129-151 | `con.` and a line break: refused by the code, not matched by the pattern |
| Registry.ValidAgainstDocumented | server/src/vault_routes.rs:129-151 | for every name the code accepts what the documented rule accepts, of at most 255 bytes, other than device names saved by a line break |
| Registry.AsciiNamesAgree | server/src/vault_routes.rs:129-151 | on one line of ASCII, code and documented rule agree |
| Registry.LongNameRefused | server/src/vault_routes.rs:129-134 | of letters of two, three and four bytes at most 127, 85 and 63 are taken: the limit counts bytes |
| Registry.ValidNameIsAChild | server/src/fs_routes.rs:62-86 | a valid vault name resolves to exactly one direct child of any root |
| Registry.VaultRegistry.Discover | server/src/registry.rs:24-41 | every directory below the vault root becomes a vault with the tree of its content |
| Registry.VaultRegistry.InsertVault | server/src/registry.rs:66-69 | the name is bound to a fresh index of that path and content |
| Registry.VaultRegistry.RemoveVault | server/src/registry.rs:73-75 | the name is dropped; the result says whether it was there |
| Registry.VaultCreate | server/src/vault_routes.rs:154-177 | disk, registry and status of a creation, for every outcome of its file operations |
| Registry.CreateMeans | server/src/vault_routes.rs:154-177 | the exact condition of each answer to a creation; a vault that was created holds an empty `.obsidian` and nothing else, and its index says so |
| Registry.VaultRename | server/src/vault_routes.rs:180-207 | disk, registry and status of a rename, for every outcome of its file operations |
| Registry.RenameAnswers | server/src/vault_routes.rs:180-207 | the exact condition of each answer to a rename |
| Registry.VaultRemove | server/src/vault_routes.rs:210-226 | disk, registry and status of a removal, for every outcome of its file operations |
| Registry.RemoveMeans | server/src/vault_routes.rs:210-226 | a removal that succeeds leaves neither directory nor vault; one that fails leaves the vault and what could not be removed |
| Registry.RegistryMatchesDisk | server/src/vault_routes.rs:154-226 | over every serial run, error replies included, each registered name has an index rooted at its own directory, and that directory exists |
| Registry.OnlyTheNamed | server/src/vault_routes.rs:154-226 | a request touches only the vaults it names; 400, 404 and 409 touch nothing, and only 200 changes the registry |
| Registry.RenameMoves | server/src/vault_routes.rs:180-207 | a successful rename moves the directory with its content, re-keys the vault, and keeps the number of vaults |
| Registry.RenameBack | server/src/vault_routes.rs:180-207 | renaming there and back restores everything exactly when the first name is a valid one and its index was up to date |
| Registry.CreateRemove | server/src/vault_routes.rs:154-226 | creating and removing a vault is as if nothing had happened |
| Registry.HalfCreated | server/src/vault_routes.rs:154-177 | a creation answered 500 can be repeated exactly when the vault directory itself could not be made; otherwise the directory left behind blocks the name and cannot be removed |
| Registry.VaultsConserved | server/src/vault_routes.rs:154-226 | over every serial run the number of vaults changes by the creations and removals that succeeded, and by nothing else |
| Registry.UnnamedUntouched | server/src/vault_routes.rs:154-226 | what no request of a run names stays as it was, on disk and in the registry |

## Left out

- `tree_to_value` and the other JSON shapes, HTTP routing, extractors, compression, logging, `main.rs`: no state of their own.
- Times are opaque values: the conversion to milliseconds in floating point is not modelled.
- The watcher's coalescing and its timing: the model takes any list of reported paths, and any queued paths may be dropped as an error.
- An error of the parallel walk on one entry skips that entry; the model skips an entry only when it is gone.
- File names with a backslash, which have no key of their own: excluded from paths, apart from the lemmas that say so of raw strings.
- Resolve.ResolveInVault: Windows prefixes and the overflow of a 32-bit depth counter are not modelled; the loop over components stands in a method of its own.
- `IndexSystem`: one vault, one watcher thread and one walk at a time.
- HeadlessSync.CrashExactly: bytes of a file that two requests fill at once are not modelled, only whether the file is whole.
- `broadcast_status` and the logs route of the sync plugin, its CLI output, and remote vaults: no bearing on what is persisted.
- Redirects.ProxyRequests: name resolution is taken as checked; the connection made later resolves again and is outside the model.
- The order in which a header map lists different names; names that are not valid are dropped before the model.
- Concurrent updates of settings and of the vault registry: the code checks and acts without a lock, so those properties are stated for serial runs.
- Settings.SettingsState.Loaded: the parsing of the number in WRITE_COALESCE_MS is left to the library; get_settings, get_version and the plugin listing only read.
- Settings.MergeClean: the loops over number keys and list keys stand in methods of their own, and error texts are reduced to the offending key.
- Registry.VaultRegistry.Discover: the sorted listing of names, and changes to the vault root made by others while the server runs.
- Archive.ZipWalk: compression, and files that change while they are read.
- Heartbeat timing: a ping may come at any turn.
- `static_routes.rs`, `plugins.rs` listing, the remaining file routes, `parse_remote_vaults`, `content_disposition`: easy members.
