# Sendor, modelled in Dafny

Sendor is a small file-distribution service. Users upload files into a *file stash*.
They then ask for a stashed file to be *distributed* to one of the configured *targets*,
for example a host reached by SFTP. Each distribution becomes a *task* in a *queue*. A
*worker* runs the task's *actions* and reports the task's state, activity and log back.
A browser follows the queue and the stash through a socket protocol, *backsync*. Backsync
pairs each request with its reply by a correlation id, and pushes `upsert`/`delete` events
when the server's collections change. The repository also keeps the program's first
version at its root: a job queue, a job/task model, a process-pool worker and chunked SFTP
transfer actions.

This project models the sequential bookkeeping behind the web, socket, thread and process
layers:

- the backsync client's pending-call table, envelope building, dispatch and collection
  replication (`backsync_client.dfy`);
- the server-side router and its sessions (`backsync_router.dfy`);
- the socket API's event mapping and read handlers (`backsync_api.dfy`);
- the reference-counted stash index with its lock discipline (`file_stash.dfy`);
- the task state machine, `format_timedelta` and path translation (`sendor_task.dfy`);
- the task queue with its dispatch bound, cancel/remove rules and cleanup selection
  (`sendor_queue.dfy`);
- the worker's enqueue gate and first-resolution-wins result handling (`sendor_worker.dfy`);
- the observer list (`observable.dfy`);
- the chunk plans and block loops of the transfer actions (`transfer_actions.dfy`,
  `legacy_actions.dfy`);
- the target registry and action construction (`targets.dfy`);
- the REST routes' status mapping and lock accounting (`distribution_api.dfy`);
- the first version's job, queue and worker (`legacy_job.dfy`, `legacy_queue.dfy`,
  `legacy_worker.dfy`).

`common.dfy`, `text.dfy`, `json.dfy` and `lists.dfy` hold shared definitions:
- the Option/Result types;
- decimal strings and Python's `split`, `join`, `replace` and `os.path.join`;
- JSON values;
- duplicate-free lists.

Objects that the program updates in place are Dafny classes with `modifies` frames:
- the stash, the queue, the worker, the observable, the transport, the router;
- the tasks and jobs, the action contexts and the registry.

Their methods are proved against specification functions. The lemmas beside those
functions state the program's promises.

## Model

| member | source | states |
|---|---|---|
| BacksyncClient.WireVerb | static/backsync/backsync.js:99-101 | create and update go on the wire as "upsert"; read, delete and patch keep their own name; no verb contains ':' |
| BacksyncClient.BuildRequest | static/backsync/backsync.js:95-105 | the envelope carries the request's fresh id and the event `namespace:verb`; it has no data exactly when the method is a read, and the model's JSON otherwise |
| BacksyncClient.Dispatch | static/backsync/backsync.js:53-71 | a message answering a pending id removes that entry and triggers no event; with an error field it calls only the error continuation, with the error, otherwise only the success continuation, with `data.data`; a missing continuation means no call; a message with no pending id leaves the table alone and triggers its event with its data |
| BacksyncClient.ReplyConsumedOnce | static/backsync/backsync.js:58-60 | the same reply arriving a second time is handled as a push event, and the table has lost exactly that entry |
| BacksyncClient.Transport.constructor | static/backsync/backsync.js:14-15 | a new transport has an empty pending table, a socket not yet open, and nothing sent or deferred |
| BacksyncClient.Transport.AddTx | static/backsync/backsync.js:28-30 | the continuations are recorded under the id, replacing any earlier entry; nothing else changes |
| BacksyncClient.Transport.Sync | static/backsync/backsync.js:95-117 | the continuations are recorded under the fresh id, and the envelope is sent at once when the socket is open and deferred to the open event otherwise |
| BacksyncClient.Transport.SocketOpened | static/backsync/backsync.js:111-114 | on open, the deferred envelopes are sent in the order they were deferred, and the pending table is untouched |
| BacksyncClient.Transport.OnMessage | static/backsync/backsync.js:53-71 | the new pending table and the effect are exactly those of `Dispatch` on the old table |
| BacksyncClient.Transport.OnClose | static/backsync/backsync.js:43-51 | every pending entry with an error continuation receives 'CLOSED' exactly once, no other entry is notified, and the table ends empty |
| BacksyncClient.FindModel | static/backsync/backsync.js:140-142 | the result is the first model whose id equals the record's id; none when the record has no id or no model carries it |
| BacksyncClient.UpsertThenFind | static/backsync/backsync.js:144-151 | after `serverUpsert` some model carries every attribute of the record |
| BacksyncClient.FindModelFirst | static/backsync/backsync.js:140-142 | the first model carrying the record's id is the one found |
| BacksyncClient.UpsertKeepsIdsUnique | static/backsync/backsync.js:144-151 | upserting keeps the ids of a collection unique |
| BacksyncClient.DeleteThenFindNothing | static/backsync/backsync.js:153-157 | after `serverDelete` no model carries the record's id, ids stay unique, a record not present changes nothing, and a present one is removed from its position only |
| BacksyncClient.UpsertIdempotent | static/backsync/backsync.js:144-151 | delivering the same upsert twice leaves the collection as delivering it once |
| BacksyncClient.Collection.constructor | static/backsync/backsync.js:129-134 | a new collection has its url and id attribute and no models |
| BacksyncClient.Collection.Channels | static/backsync/backsync.js:120-134 | the collection listens on `url:upsert` and `url:delete`, two different events |
| BacksyncClient.Collection.ServerUpsert | static/backsync/backsync.js:144-151 | the models become the upsert of the record into the old models, with ids kept unique |
| BacksyncClient.Collection.ServerDelete | static/backsync/backsync.js:153-157 | the models become the old models without the record's id, and the id is no longer found |
| BacksyncRouter.OnMessage | backsync/router.py:46-95 | an event without ':' is dropped; otherwise the handler method is called exactly when the model is registered and has the method, with the message's data; a reply is sent exactly when the id is truthy, echoing id and event, with the unknown-model, missing-method or `EXCEPTION:` error and no data, or with the call's result and no error |
| BacksyncRouter.ClientEventParses | backsync/router.py:54 | an event the browser builds from a namespace without ':' splits back into that namespace and the wire verb |
| BacksyncRouter.Router.constructor | backsync/router.py:8-11 | no models, no listeners, no active session |
| BacksyncRouter.Router.Register | backsync/router.py:14-16 | the name is bound to the handler, replacing an earlier one; sessions are untouched |
| BacksyncRouter.Router.Instance | backsync/router.py:18-19 | the registered handler for the name, none for an unknown name |
| BacksyncRouter.Router.OnOpen | backsync/router.py:21-24 | the connection joins the listeners and becomes the active session |
| BacksyncRouter.Router.OnClose | backsync/router.py:37-44 | closing a listener removes it and keeps the active session among the remaining listeners, none when no listener remains; closing a connection that is not listening raises and changes nothing |
| BacksyncRouter.Router.Push | backsync/router.py:97-115 | a push is broadcast, to every listener, exactly when some connection is open; its event is `sync_name:verb` (the class name when there is no sync name) and its data the instance |
| BacksyncApi.PushVerb | FileDistribution/backsync_api.py:51-56 | 'add' and 'change' become an upsert, 'remove' a delete, and every other event type raises |
| BacksyncApi.ProgressJson | FileDistribution/SendorTask.py:121-131 | the pushed progress has eight of the nine progress keys, all but 'completion_ratio', each carrying the report's value: the task id and enqueue time (null when absent), the description, the duration (null before the start), the state name, the activity, the cancelable flag and the log |
| BacksyncApi.TasksNotification | FileDistribution/backsync_api.py:47-56 | an unknown event raises before the progress is taken; a progress that cannot be made raises; otherwise the task's progress is pushed on '/api/tasks' with the event's verb, to every listener when one is connected |
| BacksyncApi.FileStashNotification | FileDistribution/backsync_api.py:58-67 | an unknown event raises; otherwise the entry's JSON is pushed on '/api/file_stash' with the event's verb, to every listener when one is connected |
| BacksyncApi.ProgressPushFindsTask | FileDistribution/backsync_api.py:52 | a pushed progress of an enqueued task is matched, by 'task_id', to the browser model of that task |
| BacksyncApi.FileStashRead | FileDistribution/backsync_api.py:8-11 | the read returns `{'collection': ...}` holding one JSON entry per stash entry, in timestamp order |
| BacksyncApi.FileStashReadAgrees | FileDistribution/backsync_api.py:9-11 | the socket lists the stash exactly as the REST route does, and that listing is sorted by timestamp and a permutation of the stash |
| BacksyncApi.TargetsRead | FileDistribution/backsync_api.py:22-25 | the read returns the targets as id and name, or raises the missing 'name' key |
| BacksyncApi.TargetsReadAgrees | FileDistribution/backsync_api.py:23-25 | the socket read succeeds exactly when the REST route answers 200, with the same items |
| BacksyncApi.TasksRead | FileDistribution/backsync_api.py:36-39 | the read returns one progress per task, in queue order, and raises exactly when some task's progress cannot be made |
| BacksyncApi.HandlerCall | FileDistribution/backsync_api.py:13-17 | `read` returns the listing or raises what it raised; `upsert` and `delete` raise `NotImplementedError` |
| BacksyncApi.CreateBacksyncApi | FileDistribution/backsync_api.py:5-34 | the stash, targets and tasks handlers are registered under their urls, leaving sessions alone |
| BacksyncApi.ClientSaveIsRefused | FileDistribution/backsync_api.py:41-42 | a browser save of a task is answered with the `EXCEPTION:` error and no data |
| Observable.Deliveries | FileDistribution/Observable.py:20-22 | notify calls each notifier once, in subscription order, with the same keyword arguments |
| Observable.DeliveredOnce | FileDistribution/Observable.py:20-22 | with no notifier subscribed twice, a notification reaches each subscriber exactly once and no one else |
| Observable.AfterUnsubscribe | FileDistribution/Observable.py:14-16 | after unsubscribing a notifier it hears nothing more, while every other subscriber still hears each notification once |
| Observable.Observable.constructor | FileDistribution/Observable.py:6-7 | a new observable has no notifiers |
| Observable.Observable.Subscribe | FileDistribution/Observable.py:9-12 | a notifier already subscribed is refused and the list is unchanged; otherwise it is appended |
| Observable.Observable.Unsubscribe | FileDistribution/Observable.py:14-18 | the notifier is removed wherever it is; one not subscribed raises; afterwards it is not subscribed |
| Observable.Observable.Notify | FileDistribution/Observable.py:20-22 | the calls made are exactly the deliveries to the current notifiers |
| BacksyncRouter.ParseEvent | backsync/router.py:54 | the event splits into model name and method name exactly when it holds a ':', at its first ':', and the two rejoin into the event |
| BacksyncApi.PushReachesCollection | backsync/router.py:97-114 | a broadcast of an 'add', 'change' or 'remove' under a collection's url is one of the two channels the collection listens to, the first for 'add' and 'change', the second for 'remove', and the client's dispatch of the pushed envelope triggers that channel with the pushed data |
| BacksyncApi.QueueAnnouncementReachesCollection | FileDistribution/backsync_api.py:47-56 | every event the task queue announces is broadcast under the tasks collection's url with the task's progress report as data, on the collection's change channel unless it is a 'remove', and the client triggers it with that data |
| BacksyncApi.StashAnnouncementReachesCollection | FileDistribution/backsync_api.py:58-67 | every event the file stash announces is broadcast under the files collection's url with the file's JSON as data, on the collection's change channel unless it is a 'remove', and the client triggers it with that data |
| FileStash.ToJson | FileDistribution/FileStash.py:55-61 | the JSON of an entry has exactly the six keys, with its id and hash, and 'is_deletable' holds exactly when no lock is outstanding |
| FileStash.NextIdFresh | FileDistribution/FileStash.py:168-171 | the id the counter issues next was never issued before, so a new entry never overwrites an old one |
| FileStash.IdsWithInsert | FileDistribution/FileStash.py:160-172 | indexing a new entry adds its id to the entries sharing its content and to no other content's |
| FileStash.IdsWithDelete | FileDistribution/FileStash.py:185-189 | dropping an entry removes its id from the entries sharing its content only |
| FileStash.IdsWithSameContent | FileDistribution/FileStash.py:267 | changing an entry's lock count leaves the entries per content unchanged |
| FileStash.Reconciled | FileDistribution/FileStash.py:131-134 | the entries kept are exactly the index entries whose file is on disk |
| FileStash.PrefixStep | FileDistribution/FileStash.py:147-149 | adding the next kept entry extends the index by that entry under the next id and raises its content's count by one |
| FileStash.AddEventsAt | FileDistribution/FileStash.py:148-149 | the k-th announcement of a rebuild adds the k-th kept entry under the counter's k-th id |
| FileStash.AddEventsAdd | FileDistribution/FileStash.py:148-149 | a rebuild announces nothing but additions |
| FileStash.CountedHash | FileDistribution/FileStash.py:160-162 | every hash counted while rebuilding came from a kept entry, so it has 40 characters |
| FileStash.IndexedOk | FileDistribution/FileStash.py:145-149 | the rebuilt index is consistent: ids issued by the counter, known contents, and counts equal to the number of entries per content |
| FileStash.IndexedSize | FileDistribution/FileStash.py:145-149 | the rebuilt index holds one entry per kept entry, under ids the counter issued |
| FileStash.IndexedLookup | FileDistribution/FileStash.py:145-149 | the k-th kept entry is indexed under the counter's k-th id with its own name, hash, time and size and no lock |
| FileStash.CountedReferenced | FileDistribution/FileStash.py:136-143 | a hash is counted exactly when a kept entry refers to it, and every count is positive, so the files left on disk are exactly the counted ones |
| FileStash.LockedStep | FileDistribution/FileStash.py:244-249 | trying one more id removes that entry exactly when it is unlocked and keeps it otherwise |
| FileStash.LockedDone | FileDistribution/FileStash.py:242-249 | before any id is tried nothing is gone; after all are tried exactly the locked entries remain |
| FileStash.AddKeepsIndex | FileDistribution/FileStash.py:155-178 | indexing a new entry under the counter's id, with a known or 40-character hash, keeps the index consistent |
| FileStash.AddKeepsIssued | FileDistribution/FileStash.py:168-171 | every id in the index stays one the counter issued |
| FileStash.AddKeepsCounts | FileDistribution/FileStash.py:160-165 | after indexing a new entry each content's count is still its number of entries |
| FileStash.NoIdsWith | FileDistribution/FileStash.py:160-162 | a content without a physical file has no entries |
| FileStash.CountPositive | FileDistribution/FileStash.py:188-198 | the content of an indexed entry has a count of at least one |
| FileStash.RemoveKeepsIndex | FileDistribution/FileStash.py:180-198 | dropping an entry and one reference to its content keeps the index consistent |
| FileStash.RemoveKeepsCounts | FileDistribution/FileStash.py:185-189 | after dropping an entry each content's count is still its number of entries |
| FileStash.RelockKeepsIndex | FileDistribution/FileStash.py:260-277 | changing only an entry's lock count keeps the index consistent |
| FileStash.DiskAfterBump | FileDistribution/FileStash.py:215-218 | after a new reference the content's file is in the directory, kept or moved there |
| FileStash.DiskAfterDrop | FileDistribution/FileStash.py:237-238 | the file leaves the directory exactly when its last reference goes |
| FileStash.Stash.constructor | FileDistribution/FileStash.py:88-94 | a new stash is empty, consistent, with the counter at 0 and nothing announced |
| FileStash.Stash.Get | FileDistribution/FileStash.py:255-258 | the entry with the id, none for an unknown id |
| FileStash.Stash.AddToIndex | FileDistribution/FileStash.py:155-178 | a new hash that is not 40 characters raises and changes nothing; otherwise a new unlocked entry goes under `str(unique_id)`, its content's count rises by one, the counter moves on, and an 'add' is announced with the entry |
| FileStash.Stash.RemoveFromIndex | FileDistribution/FileStash.py:180-198 | an unknown id raises and changes nothing; otherwise the entry goes, its content's count drops by one, a 'remove' is announced, and the result says whether that was the last reference; the index stays consistent |
| FileStash.Stash.Add | FileDistribution/FileStash.py:200-221 | the hash is the first 40 characters of the digest output; a shorter one raises, changes nothing, leaves the counter alone and announces nothing; otherwise the file is indexed under the counter's id, the counter moves on by one, its content is in the directory with one more reference, and it is announced as 'add'; the stash stays consistent |
| FileStash.Stash.Remove | FileDistribution/FileStash.py:223-240 | an unknown id and a locked entry raise their own errors and change nothing; an unlocked entry goes, a 'remove' is announced, and its content's file leaves the directory exactly when this was its last entry |
| FileStash.Stash.Lock | FileDistribution/FileStash.py:260-269 | an unknown id raises; otherwise the entry carries one more lock, a 'change' is announced, and it is returned |
| FileStash.Stash.Unlock | FileDistribution/FileStash.py:271-277 | the entry carries one lock fewer and a 'change' is announced; the contents and the directory are untouched |
| FileStash.LockThenUnlock | FileDistribution/FileStash.py:260-277 | a lock followed by an unlock leaves the index exactly as it was |
| FileStash.Stash.RemoveAllUnlockedFiles | FileDistribution/FileStash.py:242-249 | exactly the locked entries remain, the refusals of locked ones swallowed; the events announced are one 'remove' for each entry removed and no other, each carrying the unlocked entry; the directory keeps exactly the contents of the entries left, and loses no other file; the stash stays consistent |
| FileStash.Stash.RemoveIfUnlocked | FileDistribution/FileStash.py:245-249 | one id tried: an unlocked entry is removed and announced once, a locked one stays, and the sweep's account of what is left and what was announced holds |
| FileStash.RemovalStep | FileDistribution/FileStash.py:245-249 | announcing the removal of an unlocked entry not announced before keeps every entry announced at most once, and adds that entry to those announced |
| FileStash.DiskIsContents | FileDistribution/FileStash.py:223-240 | in a consistent stash the directory holds exactly the contents some entry refers to |
| FileStash.Stash.BuildIndex | FileDistribution/FileStash.py:107-153 | entries whose file is missing are dropped, the directory keeps exactly the files the remaining entries refer to, and those entries are indexed afresh under counter ids into a consistent stash, each announced as an 'add' in order and nothing else announced; a malformed hash among them raises |
| FileStash.Stash.IndexAll | FileDistribution/FileStash.py:144-149 | the index becomes exactly the kept entries under consecutive counter ids with the counts per content, or indexing raises exactly when a kept hash is malformed; the announcements are one 'add' per kept entry, in order, each carrying the entry under its id, and only additions are announced even when indexing raises |
| FileStash.Stash.IndexNext | FileDistribution/FileStash.py:148-149 | indexing the next kept entry raises exactly when its hash is malformed, and otherwise extends the index, the counts and the announcements by that entry |
| SendorTask.TimedeltaFields | FileDistribution/SendorTask.py:10-15 | the hours, minutes and seconds fields are within their ranges and the four fields recombine to the total seconds, for negative totals too |
| SendorTask.UnitNameRoundTrip | FileDistribution/SendorTask.py:17-23 | each unit's name reads back as that unit and holds no comma |
| SendorTask.PrefixedJoin | FileDistribution/SendorTask.py:18-23 | putting a field in front of a rendering is the same as joining one more part |
| SendorTask.FormatTimedelta | FileDistribution/SendorTask.py:8-24 | `format_timedelta` on whole seconds: its meaning is stated by FormatIsJoin, FormatEndsWithSeconds and ParseFormat, which read the rendering back as the duration |
| SendorTask.FormatIsJoin | FileDistribution/SendorTask.py:10-25 | the rendered duration is its non-zero day, hour and minute fields and the seconds field, joined by ", " |
| SendorTask.DigitsPlain | FileDistribution/SendorTask.py:17-23 | the decimal number in a field has no space and no comma |
| SendorTask.ParseFieldOf | FileDistribution/SendorTask.py:17-23 | a field reads back as its number times its unit, and holds no comma |
| SendorTask.SumParsed | FileDistribution/SendorTask.py:17-23 | fields that each read back as their part's seconds add up to the parts' total |
| SendorTask.RenderAt | FileDistribution/SendorTask.py:17-23 | the k-th written field is the k-th part's |
| SendorTask.RenderLength | FileDistribution/SendorTask.py:17-23 | one written field per part |
| SendorTask.RenderSum | FileDistribution/SendorTask.py:17-23 | written parts read back as the seconds they stand for |
| SendorTask.RenderCommaFree | FileDistribution/SendorTask.py:17-23 | written parts hold no comma |
| SendorTask.PartsTotal | FileDistribution/SendorTask.py:11-23 | the fields written for a non-negative duration add up to it, so dropping zero fields loses nothing |
| SendorTask.ParseJoined | FileDistribution/SendorTask.py:17-23 | comma-free fields joined by ", " read back as their sum |
| SendorTask.ParseFormat | FileDistribution/SendorTask.py:10-25 | reading a rendered non-negative duration back gives the duration |
| SendorTask.PrefixedEndsWith | FileDistribution/SendorTask.py:18-23 | prefixing a field keeps the end of the rendering |
| SendorTask.FormatEndsWithSeconds | FileDistribution/SendorTask.py:17 | every rendering ends with the seconds field, which is always written |
| SendorTask.StringState | FileDistribution/SendorTask.py:76-88 | each of the five state codes has its name; any other code raises "Unknown state <code>" |
| SendorTask.StringStateRoundTrip | FileDistribution/SendorTask.py:76-86 | state names identify states: the name of a known code reads back as the code, and a known name is the name of the code it reads as |
| SendorTask.TranslatePath | FileDistribution/SendorTask.py:139-143 | `translate_path`: its meaning, each placeholder replaced by the work directory and the path kept without one, is stated by TranslatePathMeaning |
| SendorTask.TranslatePathMeaning | FileDistribution/SendorTask.py:139-143 | with a non-empty work directory, the path cut at every '{task_work_directory}' is joined back with the directory in each cut, and no piece holds the placeholder; otherwise, or with no placeholder, the path is unchanged |
| SendorTask.Task.constructor | FileDistribution/SendorTask.py:35-46 | a new task is not started, has no id, directory or times, empty activity and log, and is not cancelable; it holds the stash lock it is given, if any (FileDistribution/rest_api.py:22-24) |
| SendorTask.Task.Enqueued | FileDistribution/SendorTask.py:48-51 | the id, the directory and the enqueue time are set; nothing else changes |
| SendorTask.Task.MarkStarted | FileDistribution/SendorTask.py:53-55 | the task is in progress from now; nothing else changes |
| SendorTask.Task.MarkEnded | FileDistribution/SendorTask.py:57-67 | the task is completed, failed or canceled as asked, ending now; nothing else changes |
| SendorTask.Task.End | FileDistribution/rest_api.py:30-40 | ending a task sets it completed, failed or canceled as asked, ending now, and a task that holds a lock on a stash entry (a `DistributeFileTask`) gives exactly that one lock back, the stash's contents and directory untouched; a task without a lock changes nothing else |
| SendorTask.Task.SetActivity | FileDistribution/SendorTask.py:90-91 | the activity is replaced; nothing else changes |
| SendorTask.Task.AppendLog | FileDistribution/SendorTask.py:102-103 | the message and a newline go after the old log, which stays a prefix |
| SendorTask.Task.SetCancelable | FileDistribution/SendorTask.py:46 | the cancelable flag is set; nothing else changes |
| SendorTask.Task.Report | FileDistribution/SendorTask.py:108-131 | the progress fails exactly when the state is unknown; otherwise it carries the state's name, the id, the description, the enqueue time, the activity, the cancelable flag and the log, and a duration exactly once the task has started, from start to end when it has ended and from start to now while it runs |
| SendorQueue.DispatchStepOk | FileDistribution/SendorQueue.py:107-112 | one dispatch keeps the waiting and running lists apart, duplicate-free and within the process count; with room and a waiting task it moves the task at the end of the waiting list to the running list, otherwise it changes nothing; no task is lost or invented |
| SendorQueue.Older | FileDistribution/SendorQueue.py:79-89 | a task is selected exactly when its age at `now` exceeds the limit, and only listed tasks are selected |
| SendorQueue.Queue.constructor | FileDistribution/SendorQueue.py:37-48 | a new queue has its process count and `active_tasks` directory, no tasks, the counter at 0, and nothing handed to the worker or announced |
| SendorQueue.Queue.ProcessNextTaskIfAvailable | FileDistribution/SendorQueue.py:107-112 | the lists become one dispatch step of the old ones, and the task moved, if any, is handed to the worker |
| SendorQueue.Queue.Add | FileDistribution/SendorQueue.py:114-124 | the task gets the counter's id, the directory `active_tasks/<id>` and the enqueue time, becomes cancelable, joins the task list, is announced as 'add', and the lists become a dispatch step after it joined the waiting list; the task is handed to the worker exactly when fewer tasks were in the worker than it has processes; the queue stays consistent |
| SendorQueue.Queue.Notifier | FileDistribution/SendorQueue.py:51-62 | a worker 'change' is passed on; a 'remove' of a running task takes it off the running list, makes it not cancelable, is announced as 'change' and lets the next waiting task run, handing that task to the worker; a 'remove' of a task not running raises; other events change nothing |
| SendorQueue.Queue.List | FileDistribution/SendorQueue.py:126-128 | every task the queue holds, in order |
| SendorQueue.Queue.Get | FileDistribution/SendorQueue.py:130-135 | the first task with the id; `TaskNotFoundError` exactly when no task has it |
| SendorQueue.Queue.Cancel | FileDistribution/SendorQueue.py:158-167 | a waiting task is ended as canceled now, which gives back the stash lock a distribution task holds (FileDistribution/rest_api.py:37-40), leaves the waiting list and is announced; a running one is handed to the worker to cancel; any other raises `TaskHasCompletedError` and changes nothing |
| SendorQueue.Queue.Remove | FileDistribution/SendorQueue.py:169-177 | an unknown task raises `TaskNotFoundError`, a waiting or running one `TaskHasNotCompletedError`; otherwise exactly that task leaves the list and 'remove' is announced |
| SendorQueue.Queue.SelectForCleanup | FileDistribution/SendorQueue.py:71-89 | the tasks to cancel are the waiting tasks older than the wait limit, and the tasks to remove are all tasks older than the existence limit in days |
| SendorWorker.GatePrefix | FileDistribution/SendorWorker.py:83-87 | the active flag lets through a prefix of the items offered, all of them while it stays open |
| SendorWorker.GateClosed | FileDistribution/SendorWorker.py:83-105 | the queue is closed exactly when a `task_done` was offered |
| SendorWorker.GateShape | FileDistribution/SendorWorker.py:83-105 | only the last item put can be `task_done`, and the queue is still active exactly when it is not closed |
| SendorWorker.GateOpen | FileDistribution/SendorWorker.py:83-102 | items other than `task_done` all pass |
| SendorWorker.GateAfterDone | FileDistribution/SendorWorker.py:83-87 | nothing offered after `task_done` is put |
| SendorWorker.GateAppend | FileDistribution/SendorWorker.py:83-87 | items offered after an open run of items pass as if offered alone |
| SendorWorker.WorkerTask.constructor | FileDistribution/SendorWorker.py:75-81 | a new worker task has nothing queued and an active queue |
| SendorWorker.WorkerTask.Enqueue | FileDistribution/SendorWorker.py:83-87 | while active the item is put and the queue stays active as the caller says; once inactive nothing is put |
| SendorWorker.WorkerTask.Put | FileDistribution/SendorWorker.py:89-105 | an `enqueue_*` call puts its item while the queue is active, and only `task_done` closes it |
| SendorWorker.WorkerTask.Emit | FileDistribution/SendorWorker.py:83-105 | a series of `enqueue_*` calls puts exactly what the gate lets through |
| SendorWorker.WorkerTask.Run | FileDistribution/SendorWorker.py:107-166 | a whole run of the task's process leaves exactly the run's items on the queue, ending in its one `task_done`, and closes the queue |
| SendorWorker.NoTaskDoneInRunner | FileDistribution/SendorWorker.py:107-118 | the actions thread never offers `task_done` |
| SendorWorker.SupervisorCloses | FileDistribution/SendorWorker.py:144-166 | the supervisor's items end with `task_done` and all pass an open gate |
| SendorWorker.RunGate | FileDistribution/SendorWorker.py:107-166 | in the order where the actions thread's items offered before the supervisor's wait ends come first, the gate turns what the threads offer into the run's items: anything the actions thread offers after `task_done` is dropped |
| SendorWorker.RunItemsClosed | FileDistribution/SendorWorker.py:160-166 | a run's queue holds one `task_done`, last |
| SendorWorker.InterleaveItems | FileDistribution/SendorWorker.py:135-137 | any order of the two threads offers exactly the items of both, none lost and none added |
| SendorWorker.ScheduledClosed | FileDistribution/SendorWorker.py:83-105 | in every order of the two threads, the queue is a prefix of what they offered and ends with its one `task_done` |
| SendorWorker.AttemptsOrder | FileDistribution/SendorWorker.py:107-166 | the order the run's items stand for is one of the threads' orders, and its queue is the run's items |
| SendorWorker.FirstResolutionWins | FileDistribution/SendorWorker.py:246-263 | however many 'completed', 'failed' or 'canceled' statuses arrive, the task ends in the first one, and is resolved exactly when one arrived |
| SendorWorker.StatusesOfAppend | FileDistribution/SendorWorker.py:246-263 | the statuses of two runs of items are those of each, in order |
| SendorWorker.ContextStatuses | FileDistribution/SendorWorker.py:64-71 | items reported through the action context carry no status |
| SendorWorker.OneStatus | FileDistribution/SendorWorker.py:109-118 | a status followed by log items reports that one status |
| SendorWorker.RunnerStatuses | FileDistribution/SendorWorker.py:107-118 | the actions thread reports 'started', then 'completed' or, when an action raised, 'failed' |
| SendorWorker.SupervisorStatuses | FileDistribution/SendorWorker.py:144-163 | the supervisor reports 'failed' when setting up raised, else 'canceled' when the cancel flag is set, else 'failed' when the actions outlived the time limit, else nothing |
| SendorWorker.RunStatuses | FileDistribution/SendorWorker.py:107-166 | the statuses of a run's queue, in order, thread by thread |
| SendorWorker.RunStatusesAre | FileDistribution/SendorWorker.py:107-166 | the statuses of a run's queue are the run's status list |
| SendorWorker.RunStatusListResolves | FileDistribution/SendorWorker.py:246-263 | the statuses of a run resolve a fresh task to the run's result |
| SendorWorker.RunResolves | FileDistribution/SendorWorker.py:107-166 | in the order where the actions thread's items offered before the supervisor's wait ends come first, a fresh task fed the run's queue ends completed when its actions finished, failed when one raised, setting up raised or the time ran out, and canceled when cancelled while the actions still ran |
| SendorWorker.KnownItemsStatuses | FileDistribution/SendorWorker.py:246-263 | items whose statuses are all 'started' or a resolution report only such statuses |
| SendorWorker.InterleaveKnown | FileDistribution/SendorWorker.py:135-137 | an order of two threads that offer only known statuses offers only known statuses |
| SendorWorker.ThreadsKnown | FileDistribution/SendorWorker.py:107-166 | neither thread offers a status the worker does not know |
| SendorWorker.ScheduledStatusesKnown | FileDistribution/SendorWorker.py:107-166 | in every order of the two threads, every status on the queue is 'started' or a resolution |
| SendorWorker.GuardedFirstResolutionWins | FileDistribution/SendorWorker.py:246-263 | with a 'started' after the resolution ignored, known statuses in any order never raise, a resolved task stays as it is, and a fresh one ends in the first resolution and is resolved exactly when one arrived |
| SendorWorker.ScheduledResolvesGuarded | FileDistribution/SendorWorker.py:107-166 | with a late 'started' ignored, every order of the two threads resolves a fresh task with the first resolution its queue reports |
| SendorWorker.EarlyCancelItems | FileDistribution/SendorWorker.py:144-166 | when the supervisor reports a cancel before the actions thread runs, the queue is the cancel and its log, then the actions thread's items, then `task_done` |
| SendorWorker.EarlyCancelQueue | FileDistribution/SendorWorker.py:107-166 | that queue reports 'canceled', 'started', 'completed' in that order |
| SendorWorker.LateStartedResolution | FileDistribution/SendorWorker.py:248-261 | 'canceled', 'started', 'completed' leave a task in progress though resolved as written, and canceled with a late 'started' ignored |
| SendorWorker.EarlyCancelLeavesStarted | FileDistribution/SendorWorker.py:248-249 | a task cancelled before its threads run ends in progress as written, and canceled when a late 'started' is ignored |
| SendorWorker.Worker.constructor | FileDistribution/SendorWorker.py:182-187 | a new worker has no task in flight and has announced nothing |
| SendorWorker.Worker.Add | FileDistribution/SendorWorker.py:193-201 | the task is in flight under its id with its cancel flag down and no resolution signalled |
| SendorWorker.Worker.FindTaskInFlight | FileDistribution/SendorWorker.py:215-221 | an entry holding the task when there is one, none exactly when no entry holds it |
| SendorWorker.Worker.Cancel | FileDistribution/SendorWorker.py:209-213 | the cancel flag of the task's entry goes up; a task not in flight is left alone |
| SendorWorker.Worker.HandleItem | FileDistribution/SendorWorker.py:239-292 | an item for an id not in flight, an unknown status and an unknown type raise and change nothing; a status changes the task as the first-resolution rule says, and a 'started' sets it in progress even once it is resolved as written, but is ignored then when handled as intended; activity, log and stdout go to the task's log; `task_done` takes the task out of flight; each handled item is announced, `task_done` as 'remove' and the others as 'change'; an applied 'started' sets the task's start time and the first resolution its end time (FileDistribution/SendorTask.py:53-67) and ends the task, which gives back the stash lock a distribution task holds (FileDistribution/rest_api.py:30-40), and the task's id, work directory, enqueue time and cancelable flag never change, nor its log and activity when the item raises |
| SendorWorker.Worker.ApplyStatusItem | FileDistribution/SendorWorker.py:246-263 | the status branch: an unknown status raises and changes nothing; otherwise the task changes as the first-resolution rule says, the first resolution ends it and releases its lock, the entry keeps the resolution flag, and the item is announced as 'change' |
| SendorWorker.Worker.ApplyStatusToTask | FileDistribution/SendorWorker.py:246-263 | the task's side of a status: the state and the resolution flag change as the first-resolution rule says, as written or with a late 'started' ignored; the start and end times are set by the applied status; the first resolution releases the task's stash lock; an unknown status changes nothing |
| SendorWorker.Worker.ApplyOtherItem | FileDistribution/SendorWorker.py:264-292 | an unknown item type raises; an activity, log or stdout item goes to the task's log, `task_done` takes the task out of flight (FileDistribution/SendorWorker.py:223-232), and the item is announced, `task_done` as 'remove' and the others as 'change'; the task's state, times and lock are untouched |
| SendorWorker.Worker.RecordItem | FileDistribution/SendorWorker.py:264-286 | the task's side of such an item: the log grows by the item's text, or for `task_done` by the still-alive note when the process outlived the join timeout, an activity item sets the activity, and the task's state, times and lock are untouched |
| DistributionApi.DistributeFileTask.constructor | FileDistribution/rest_api.py:20-24 | a new distribution task's task holds the lock on the stash and the file id, has no actions, is not started, and is described as "Distribute file <source> to <target>" |
| DistributionApi.DistributeFileTask.Create | FileDistribution/rest_api.py:20-28 | constructing the task locks the file once more, and its task holds that lock to give it back when it ends, or, for a missing file, raises `FileDoesNotExistError` and no task exists |
| DistributionApi.CancelWhileWaiting | FileDistribution/rest_api.py:20-40 | the life of a distribution task canceled while it waits: it is made, enqueued behind busy workers and canceled, ends canceled, and the stash's index is as it was before it was made |
| DistributionApi.CompleteInFlight | FileDistribution/rest_api.py:20-40 | the life of a distribution task the worker sees complete: it is made and put in flight, the 'completed' status ends it completed, and the stash's index is as it was before it was made |
| DistributionApi.MakeInFlight | FileDistribution/SendorWorker.py:193-201 | a distribution task made and put in flight under the id: one more lock on its file, held by the task, and the task waits for its first status |
| DistributionApi.Lookup | FileDistribution/SendorQueue.py:130-135 | the first task with the id, none exactly when no task has it |
| DistributionApi.LookupFirst | FileDistribution/SendorQueue.py:132-134 | the queue's `get` and the lookup agree: both find the first task with the id |
| DistributionApi.TasksProgress | FileDistribution/rest_api.py:49 | one progress per task, in order, or the error of a task whose progress cannot be made |
| DistributionApi.TasksGet | FileDistribution/rest_api.py:46-50 | 200 with every task's progress in queue order, or 500 when some progress cannot be made |
| DistributionApi.TaskGet | FileDistribution/rest_api.py:52-63 | 404 with the not-found message for an unknown id, 200 with the first matching task's progress, 500 when that progress cannot be made |
| DistributionApi.TaskCancel | FileDistribution/rest_api.py:65-78 | 404 for an unknown id, 403 for a task neither waiting nor running, and 200 after a waiting task is canceled or a running one is handed to the worker; canceling a waiting distribution task gives back its one lock on the file (FileDistribution/SendorQueue.py:161 and rest_api.py:37-40), and otherwise the stash is unchanged; the task list is unchanged |
| DistributionApi.CancelFound | FileDistribution/rest_api.py:70-78 | for the task the id names: 403 with the completed message for a task neither waiting nor running, otherwise 200 after the queue canceled it, giving back the lock of a waiting distribution task |
| DistributionApi.FileStashDelete | FileDistribution/rest_api.py:92-104 | 404 for a missing file, 403 for a locked one, each with the exception's message and the stash unchanged; otherwise 200 and exactly that entry is gone |
| DistributionApi.InsertByTimestamp | FileDistribution/rest_api.py:88 | inserting an entry adds one element |
| DistributionApi.SortByTimestamp | FileDistribution/rest_api.py:88 | sorting keeps the number of entries |
| DistributionApi.InsertPermutes | FileDistribution/rest_api.py:88 | inserting adds exactly that entry to the multiset of entries |
| DistributionApi.InsertSorted | FileDistribution/rest_api.py:88 | inserting into a timestamp-sorted list keeps it sorted |
| DistributionApi.SortByTimestampSorts | FileDistribution/rest_api.py:88 | the listing is in ascending timestamp order and is a permutation of the stash's entries |
| DistributionApi.FileStashGet | FileDistribution/rest_api.py:86-90 | 200 with one JSON entry per stash entry, the k-th being the k-th oldest |
| DistributionApi.TargetsCollection | FileDistribution/rest_api.py:82-83 | each target, in the dictionary's order, as exactly its id and name; a target without a name raises the missing 'name' key |
| DistributionApi.TargetsListedOnce | FileDistribution/api.py:46-47 | when the order lists every configured id once, every target appears in the listing, and no two entries carry the same id |
| DistributionApi.TargetsGet | FileDistribution/rest_api.py:80-84 | 200 with the projected targets, or 500 when a target has no name |
| DistributionApi.EmptyCollections | FileDistribution/rest_api.py:46-50 | an empty queue and an empty stash are listed as empty collections |
| DistributionApi.RelockedTwice | FileDistribution/rest_api.py:109-124 | two lock changes on an entry add up |
| DistributionApi.LockAndMakeTask | FileDistribution/rest_api.py:109-116 | a missing file is refused with the stash unchanged; otherwise the route's lock and the task's lock leave the file's count two higher |
| DistributionApi.Finish | FileDistribution/rest_api.py:117-124 | when the actions were built they are given to the task, which is enqueued, and 200 is answered; when building raised, 500 and nothing is enqueued; either way the route releases its own lock, leaving the count one above where it started |
| DistributionApi.FileStashDistribute | FileDistribution/rest_api.py:106-125 | a missing file is answered with 404 and nothing changes; otherwise the task is described for the file and the target, the entry ends with one more lock, and the route answers 200 with the task enqueued holding the target's actions, or 500 with nothing enqueued when the actions cannot be built |
| DistributionApi.ReleaseTaskLock | FileDistribution/rest_api.py:25 | giving back the task's lock restores the entry exactly |
| DistributionApi.FileStashDistributeReleasing | FileDistribution/rest_api.py:106-125 | as the route, except that when the actions cannot be built the stash ends exactly as it started |
| DistributionApi.OneFileStash | FileDistribution/FileStash.py:200-221 | a stash with one uploaded file, under id "0", with no lock |
| DistributionApi.UnknownTargetLeaks | FileDistribution/rest_api.py:115-122 | distributing that file to an unknown target answers 500, and afterwards deleting the file fails with `FileCannotBeRemovedError` |
| DistributionApi.UnknownTargetReleases | FileDistribution/rest_api.py:115-122 | through the corrected route the same request answers 500, and the file can still be deleted |
| Targets.LogMessage | Targets.py:17-24 | the log text is "<kind> distribution of <filename> to <name>"; a target without a 'name' raises a key error |
| Targets.Registry.constructor | FileDistribution/target_distribution_methods.py:2 | the registry starts empty |
| Targets.Registry.Register | FileDistribution/target_distribution_methods.py:4-5 | the name is bound to the method, replacing an earlier binding; requests for that name now get that method's actions and all others are unaffected |
| Targets.Registry.CreateActions | FileDistribution/target_distribution_methods.py:7-8 | the actions the method named by the target's 'distribution_method' returns, unchanged; a target without that key, or naming an unregistered method, fails with a key error |
| Targets.CreateDistributionActions | Targets.py:32-42 | an unknown target id raises before anything is built; otherwise the method's actions between a 'Started' and a 'Completed' log action, or the method's error |
| TransferActions.DivUnique | FileDistribution/actions.py:194-195 | helper of StepBounds and OffsetEnds: integer division is fixed by quotient and remainder |
| TransferActions.MulAwayFromZero | FileDistribution/actions.py:194-195 | helper of DivUnique and MulCancel: a non-zero multiple of n is at least n away from 0 |
| TransferActions.MulCancel | FileDistribution/actions.py:194-195 | helper of ChunksAtLeastChunkSize: multiplying by a positive number keeps strict order |
| TransferActions.Offset | FileDistribution/actions.py:193-194 | where chunk i of n starts; OffsetEnds states that the first starts at 0 and the last ends at the size, StepBounds that consecutive offsets differ by `size//n` or one more |
| TransferActions.StepBounds | FileDistribution/actions.py:194-195 | consecutive offsets `(i*size)//n` differ by `size//n` or one more |
| TransferActions.FloorDiv | FileDistribution/actions.py:143 | Python 2's integer `/`: Dafny's quotient for a positive divisor, and at most 0 for a negative one |
| TransferActions.NumChunks | FileDistribution/actions.py:143 | a chunk size of 0 raises; otherwise the count is `size // chunk_size` clamped to [1, 99]: that quotient when in range, 1 below it, 99 above it, and 1 for a negative chunk size |
| TransferActions.Length | FileDistribution/actions.py:194-195 | a chunk's length is `size // n` or one more, and the chunk ends where the next begins |
| TransferActions.OffsetEnds | FileDistribution/actions.py:193-195 | the first chunk starts at 0 and the last one ends at `size` |
| TransferActions.ChunksAtLeastChunkSize | FileDistribution/actions.py:143 | when the count is not clamped, every chunk is at least the configured chunk size |
| TransferActions.TotalOfContiguous | FileDistribution/actions.py:193-195 | chunks lying end to end cover exactly their total length |
| TransferActions.TilesTotal | FileDistribution/actions.py:193-195 | chunks that tile `[0, size)` have lengths adding up to `size` |
| TransferActions.PlanChunks | FileDistribution/actions.py:192-196 | the plan has one chunk per index, chunk i at `(i*size)//n` with the next offset as its end, and the chunks tile `[0, size)` |
| TransferActions.TransferContext.constructor | FileDistribution/actions.py:156-157 | nothing sent, no size, no up-to-date verdict yet |
| TransferActions.TransferContext.TransferChunk | FileDistribution/actions.py:166-184 | the chunk goes out in blocks of 16384 bytes and one last shorter block, which add up to its length, and each block is added to the bytes sent |
| TransferActions.TransferContext.TransferChunks | FileDistribution/actions.py:156-202 | after all chunks of the plan the bytes sent equal the file size |
| TransferActions.TransferContext.TestIfFileUpToDate | FileDistribution/actions.py:64-80 | the file is up to date exactly when the first 40 characters of the remote `sha1sum` output are the expected hash; a failing command means not up to date |
| TransferActions.TransferContext.ParallelSend | FileDistribution/actions.py:138-211 | skipped when the file is up to date; otherwise a zero chunk size raises, and for any other chunk size every byte is sent and the send succeeds exactly when the remote hash afterwards matches |
| TransferActions.First40 | FileDistribution/actions.py:71 | the first 40 characters, the whole string when shorter |
| TransferActions.UpToDateMeansPrefix | FileDistribution/actions.py:71-75 | a 40-character hash is up to date exactly when the remote output starts with it |
| TransferActions.SftpSend | FileDistribution/actions.py:92-122 | skipped when the file is up to date; otherwise the remote file is removed and the action raises exactly when the remote hash afterwards differs |
| TransferActions.HostString | FileDistribution/actions.py:67 | the SSH host string, built the same way by the root actions.py:83 and actions.py:139; HostStringParts states that it names its parts, splitting back into user, host and port |
| TransferActions.HostStringParts | actions.py:83 | `user@host:port` splits back into user, host and port at its first '@' and its last ':' when the user has no '@' and the port no ':' (the same string as at actions.py:139 and FileDistribution/actions.py:67) |
| LegacyActions.ChunkNameMatchesGlob | actions.py:183-197 | the suffix of every chunk below 100 is two digits, and a chunk name matches the merge glob `chunk_??` exactly when the chunk number is below 100 |
| LegacyActions.ChunkNamesInOrder | actions.py:183-195 | chunk names sort in chunk order, so the glob expansion merges the chunks in the order they were cut |
| LegacyActions.LocalChunkNameParts | actions.py:134-136 | the local chunk file lies in the work directory and ends in the remote chunk name |
| LegacyActions.ChunkFiles | actions.py:182-186 | one (local, remote) name pair per chunk |
| LegacyActions.ChunkFilesAt | actions.py:182-186 | entry i names chunk i, locally and remotely |
| LegacyActions.DivMonotone | actions.py:172 | helper of PercentBounds: integer division keeps order |
| LegacyActions.PercentBounds | actions.py:170-173 | the percentage never leaves [0, 100], never goes down as chunks complete, and is 100 when all have |
| LegacyActions.PercentMessages | actions.py:170-173 | one message per completed chunk, the k-th reporting the percentage after k+1 chunks |
| LegacyActions.PercentMessagesEnd | actions.py:170-173 | the chunk messages never go down and the last reads "Transferring chunks using SFTP - 100% done" |
| LegacyActions.ActionContext.constructor | actions.py:158-159 | a new context has its work directory, no progress messages and no chunk counts |
| LegacyActions.ActionContext.SftpSend | actions.py:76-113 | a remote copy whose hash matches is kept and the transfer skipped; otherwise the file is sent, and a hash mismatch afterwards removes the remote file and raises; the progress messages are exactly those of the branch taken |
| LegacyActions.ActionContext.SendChunks | actions.py:156-192 | every chunk is sent under its two names, the counters end at the chunk count, and each completion reports its percentage |
| LegacyActions.ActionContext.ParallelSftpSend | actions.py:129-205 | a zero chunk size or a missing work directory raises before anything is reported; a matching remote copy skips the transfer; otherwise all chunks are sent, merged and checked, with the messages of that branch, and a mismatch removes the remote file and raises |
| LegacyActions.SentChunksMerge | actions.py:182-197 | every chunk a transfer sends matches the merge glob, in chunk order, and its local file lies in the work directory |
| LegacyJob.LegacyTask.constructor | SendorJob.py:41-46 | a new task is not started, has empty details and no id, work directory or progress; its description is the one its subclass gives, or none |
| LegacyJob.LegacyTask.SetQueueInfo | SendorJob.py:48-50 | the id and work directory are set and the task's state, details and progress are unchanged |
| LegacyJob.LegacyTask.SetState | SendorJob.py:52-62 | `started`, `completed`, `failed` and `canceled` set the state to their code and change nothing else |
| LegacyJob.LegacyTask.AppendDetails | SendorJob.py:88-89 | the details grow by the text and a newline, keeping what was there; nothing else changes |
| LegacyJob.LegacyTask.SetProgress | SendorWorker.py:157 | the progress message is recorded and nothing else changes (the method the worker calls, which the task class lacks) |
| LegacyJob.LegacyTask.Status | SendorJob.py:68-86 | a task's status entry exists iff it has a description and a known state; without a description it raises "No description given"; otherwise the entry holds the description, the state's name and the details |
| LegacyJob.LegacyJob.constructor | SendorJob.py:5-11 | a job holds the tasks it is given, none or an empty list giving no tasks, and has no id or work directory yet |
| LegacyJob.LegacyJob.SetQueueInfo | SendorJob.py:29-31 | the job's id and work directory are set |
| LegacyJob.LegacyJob.Progress | SendorJob.py:19-27 | the progress is one status entry per task, in task order, when every task has one; otherwise it raises the error of a task whose entry fails |
| LegacyQueue.TaskDirectoriesDistinct | SendorQueue.py:63-67 | every task directory lies inside the job directory, and two tasks' directories are equal iff their ids are |
| LegacyQueue.JobQueue.constructor | SendorQueue.py:47-54 | the job directory is `current_job` inside the work directory, the id counter starts at 0 and no job is pending |
| LegacyQueue.JobQueue.Add | SendorQueue.py:58-70 | the job gets the counter's value as id and the job directory, the counter moves on by one, task k gets id k and its own directory inside the job's, the tasks keep their state and details, the job joins the end of the pending queue and is returned |
| LegacyWorker.ProgressItems | SendorWorker.py:66-67 | one progress item per reported message, in order, each carrying the task's id |
| LegacyWorker.TaskItemsShape | SendorWorker.py:72-83 | a task's items start with 'started', all carry its id, hold 'completed' iff no action raised and 'failed' iff one did, and end with its only 'task_done' |
| LegacyWorker.WorkerTask.constructor | SendorWorker.py:55-58 | a task's end of the queue starts with its id and nothing put yet |
| LegacyWorker.WorkerTask.Run | SendorWorker.py:72-83 | the queue grows by 'started', the progress messages in order, then 'completed', or 'failed' and the traceback, then 'task_done' |
| LegacyWorker.ApplyItem | SendorWorker.py:141-168 | one item of the result loop applied to its task; ApplyItemMeaning states when it raises and what it changes |
| LegacyWorker.ApplyItemMeaning | SendorWorker.py:141-168 | an item raises iff it names an unknown status or an unknown type (or, as written, is a progress item); a status sets the state and nothing else; other items keep the state and only extend the details; 'task_done' changes no task |
| LegacyWorker.RunLoop | SendorWorker.py:137-168 | the result loop of `run`; LoopStopsAtLastTaskDone states where it stops, and SequentialRunFinishes what a sequential run ends with |
| LegacyWorker.LoopStopsAtLastTaskDone | SendorWorker.py:137-168 | the result loop ends right after the 'task_done' that finishes the last task, having consumed exactly as many 'task_done' items as tasks, and blocks only when the queue never yields enough of them |
| LegacyWorker.FinalViewState | SendorWorker.py:144-162 | a task's run ends completed when no action raised and failed when one did, keeping the details it had |
| LegacyWorker.AfterProgressExtends | SendorWorker.py:155-158 | progress messages only extend a task's details and leave its state alone |
| LegacyWorker.ProgressSteps | SendorWorker.py:155-158 | the loop over a run of progress items records each in the task they name |
| LegacyWorker.Step | SendorWorker.py:138-168 | one turn of the loop applies an applicable item to the task it names and counts a 'task_done' |
| LegacyWorker.ClosingSteps | SendorWorker.py:144-166 | the items closing a task's run leave it completed, or failed with the traceback in its details, and finish it |
| LegacyWorker.OpeningSteps | SendorWorker.py:144-158 | the loop over a task's 'started' status and its progress items marks the task started and records each message, in order |
| LegacyWorker.BlockLayout | SendorWorker.py:72-83 | a task's block in the queue is its 'started' status, then its progress items, then the items that close its run |
| LegacyWorker.BlockSteps | SendorWorker.py:138-168 | the loop over one task's whole block of items leaves that task as its run says and one task fewer left |
| LegacyWorker.SequentialPrefix | SendorWorker.py:131-135 | the queue of tasks that report one after the other begins with the queue of the first of them |
| LegacyWorker.PartlyRunAt | SendorWorker.py:137-168 | after the first m tasks have run, each of them holds its final view and every later task is untouched |
| LegacyWorker.SequentialBlock | SendorWorker.py:131-135 | in that queue, task k's whole block sits right after the blocks of the tasks before it |
| LegacyWorker.SequentialLaid | SendorWorker.py:131-135 | tasks that report one after the other lay their blocks out in task order, each where the previous one ends |
| LegacyWorker.LaidStep | SendorWorker.py:137-168 | over the block of task m-1, the loop takes the views after m-1 tasks to the views after m tasks, with one task fewer left |
| LegacyWorker.LaidSteps | SendorWorker.py:137-168 | over a queue laid out in blocks, after the first m blocks the loop has finished the first m tasks and waits for the rest |
| LegacyWorker.SequentialRunFinishes | SendorWorker.py:137-168 | when the tasks report one after the other, the loop consumes the whole queue and every task ends completed, or failed with its traceback in its details |
| LegacyWorker.ProgressItemRaises | SendorWorker.py:155-158 | as written, a task whose action reports one progress message makes the loop raise on that message; recording the progress instead runs the task to completion |
| LegacyWorker.Worker.constructor | SendorWorker.py:94-95 | the worker keeps its number of processes |
| LegacyWorker.Worker.HandOut | SendorWorker.py:129-135 | task i is handed to a process with id i and its work directory |
| LegacyWorker.Worker.ResultLoop | SendorWorker.py:137-168 | the corrected half of the first Findings row: the loop, recording a progress item instead of raising at SendorWorker.py:157, ends, and leaves every task's state and details, as the result-loop function says, and changes no work directory |
| LegacyWorker.Worker.Run | SendorWorker.py:124-168 | the corrected half of the first Findings row: the tasks are handed out in order and then the result loop, which records progress items instead of raising at SendorWorker.py:157, runs over the queue's items |
| LegacyWorker.Views | SendorWorker.py:141-142 | one view per task, in list order |
| LegacyWorker.ApplyToTask | SendorWorker.py:144-168 | the corrected half of the first Findings row: one item changes its task as the item function with progress recorded says, or leaves it as it was and raises the same error |
| LegacyWorker.ViewsAfterUpdate | SendorWorker.py:141-142 | changing one task of a list of distinct tasks changes its view and no other |

## Left out

- Threads, processes, pools, locks and events are left out. This covers the worker threads, the cleanup and expiry threads, `join`/`wait`, and the process-pool queues of both worker versions. Every operation is modelled as atomic and sequential. The two threads of a task's process are modelled by the order in which their items reach the queue, a schedule that is a parameter. Where timing decides an outcome, what the threads had done is a parameter.
- The web framework, the SockJS transport, uploads, configuration reading, `main.py` and `ui.py` are left out, because they are plumbing. A route is modelled by the status code it answers with, and an exception it lets through by 500.
- The filesystem, the shell, SSH/SFTP, `sha1sum`, and the stash's JSON index file (`save_index`, loading it) are abstracted. The stash directory is a set of names. What a remote `sha1sum` prints is a parameter. A transfer is the sequence of block sizes it writes, or the chunk files it sends.
- Floating point is left out. The completion ratios that actions report carry no value in the model, and `timedelta.total_seconds()` becomes whole seconds.
- `strftime`/dateutil calendar formatting is left out. The task's progress reports the enqueue time as the timestamp itself.
- SendorTask.FormatTimedelta: the read-back round trip is proved only for non-negative durations.
- The order in which a dictionary lists its entries is not known to the program. It is a parameter where a route or a read lists the targets.
- DistributionApi.SortByTimestamp: the sort is proved sorted and a permutation of its input, but not stable.
- The FileDistribution/api.py variants of the routes are left out, except its `targets_get` projection and its distribution, which keeps the same lock accounting. In that file a lock failure and a failed delete are not mapped to statuses, and they propagate as 500.
- Views, templates and DOM code under `static/sendor` are left out, because they are UI wiring. The Jasmine tests and their driver are left out for the same reason.
- The `target_distribution_method_*.py` files, root and FileDistribution, are left out. They only construct actions, and the registry and `create_distribution_actions` cover how those actions are chosen.
- `tasks.py` is left out. The root scp methods import actions that do not exist in `actions.py`.
- The old-file expiry of the stash (`remove_old_files_thread`, with its `max_age_ays` typo) is a thread and is left out.
- Id generation by `Math.uuid` is a fresh-id parameter. Reconnect is commented out in the client and is not modelled.
- The client's `msgTx` is dead code and is left out.
- The discarded `_.bind` results in the client are not modelled. The pending table is a field of the transport, as `onmessage` uses it.
- Inbound envelopes are taken as already parsed. The router's swallowed JSON parse errors are left out.
- BacksyncRouter.OnMessage: `getattr` without a default sits outside the `try` in backsync/router.py:71. The model answers a missing method with an error reply, which is the evident intent, instead of letting the `AttributeError` escape.
- SendorWorker.Worker.HandleItem: FileDistribution/SendorWorker.py:227 names an undefined `task`. The model appends the still-running note to the log of the task being finalized, which is the evident intent.
- LegacyWorker.ApplyItem: an unknown status raises through the undefined name `Error` at SendorWorker.py:153. The model raises with the intended message "Unknown status: …".
- BacksyncApi.ProgressJson: the 'completion_ratio' key of `progress()` is left out, because its value is a float and floating point is not modelled. The pushed progress has the other eight keys.
- TransferActions.TransferContext.TestIfFileUpToDate takes the expected hash as a string. The source's case where neither hash is known (None equals None, so the file counts as up to date) is not covered.
- FileStash.Stash.Unlock: an entry no longer in the index is a detached object whose own fields the model does not keep. Its announcement carries a placeholder entry with the id and a reference count of -1, where the source announces the detached object itself.
- LegacyQueue.JobQueue.Add takes a job whose task list holds no task twice. With a repeated task the source numbers the same object twice, and the model does not cover that case.
- LegacyWorker.Worker.Run and LegacyWorker.Worker.ResultLoop take task lists that hold no task twice, for the same reason: jobs reach the worker only through `JobQueue.Add`, so a repeated task is not covered there either.
- BacksyncClient.Transport.OnClose: static/backsync/backsync.js:15 declares `pending` as an Array, and `addTx` stores entries under uuid string keys (static/backsync/backsync.js:29). `_.each` over an Array visits only its numeric indices, so as written no error continuation hears 'CLOSED' and the table is only replaced by `{}`. This comes on top of the unbound `this` the discarded `_.bind` leaves. The model notifies every pending entry, which is the evident intent.
- SendorJob.py's `translate_path` is the same as the one in FileDistribution/SendorTask.py. It is modelled once, by SendorTask.TranslatePath.
- Targets.Targets.GetTargets returns the mapping itself, because `get_targets` is a plain lookup and needs no contract.
- The notifiers of the observable are identities, and a call is recorded as a delivery. What a notifier does when called is not part of this model.

## Findings

| source | as written | input that shows it | evidently intended | confidence | as-written member | corrected member |
|---|---|---|---|---|---|---|
| SendorWorker.py:157 | the result loop calls `task.set_progress(message)`, but the task class in SendorJob.py defines no `set_progress`, so the first progress item raises `AttributeError` | one task whose only action reports the progress "Dummy action initiated" | the progress is recorded and "Progress: <message>" is appended to the task's details, and the loop runs every task to completion | high, not executed | LegacyWorker.ProgressItemRaises | LegacyWorker.SequentialRunFinishes |
| FileDistribution/SendorWorker.py:248-249 | a 'started' status sets the task in progress even after the task was resolved | cancel a task right after it is added, before its process's threads run: the supervisor reports 'canceled' before the actions thread reports 'started' | a 'started' that arrives after the resolution is ignored, so the task stays canceled | medium, not executed | SendorWorker.EarlyCancelLeavesStarted | SendorWorker.ScheduledResolvesGuarded |
| FileDistribution/rest_api.py:115-122 | when building the actions or enqueuing the task raises, only the route's own lock is released; the lock taken by the already-constructed `DistributeFileTask` is never given back. FileDistribution/api.py:65-71 has the same leak | an existing, unlocked file distributed to a target id that is not configured | a failed distribution leaves the file's lock count as it was, so the file can still be deleted | high, not executed | DistributionApi.UnknownTargetLeaks | DistributionApi.UnknownTargetReleases |
