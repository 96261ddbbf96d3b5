/** Uploading a batch of Flickr photos to Commons
 *  (src/flickypedia/uploadr/uploads.py).
 *
 *  A batch is a task of the file-system queue whose output maps each
 *  photo id to the state of its upload. The Wikimedia API is a record of
 *  functions, each of which may raise (with the exception's text); the
 *  keyring is a map from keyring id to access token. */
module Uploads {
  import opened Wrappers
  import opened Text
  import opened Dates
  import opened Sdc
  import Claims
  import Photos
  import FsQueue

  datatype Caption = Caption(language: string, text: string)

  datatype UploadRequest = UploadRequest(
    photo: Claims.SinglePhoto,
    sdc: seq<Statement>,
    title: string,
    caption: Caption,
    categories: seq<string>)

  datatype UploadBatch = UploadBatch(keyringId: string, requests: seq<UploadRequest>)

  /** `IndividualUploadResult`. */
  datatype UploadResult = Waiting | Uploading | Succeeded(id: string, title: string) | Failed(error: string)

  type UploadBatchResults = map<string, UploadResult>

  type UploadTask = FsQueue.Task<UploadBatch, UploadBatchResults>

  /** The `state` field of an upload result. */
  function StateName(r: UploadResult): string {
    match r
    case Waiting => "waiting"
    case Uploading => "in_progress"
    case Succeeded(_, _) => "succeeded"
    case Failed(_) => "failed"
  }

  /** What a call returned, or the text of the exception it raised. */
  datatype Outcome<T> = Done(value: T) | Raised(message: string)

  /** The Wikimedia API calls an upload makes: `upload_image` returns the
   *  new page's title, `add_file_caption` its page id. */
  datatype WikimediaApi = WikimediaApi(
    uploadImage: (string, string, string) -> Outcome<string>,
    addFileCaption: (string, Caption) -> Outcome<string>,
    addStructuredData: (string, seq<Statement>) -> Outcome<()>,
    addCategoriesToPage: (string, seq<string>) -> Outcome<()>)

  /** The calls an upload made, in order; the last records the new file in
   *  the duplicate index. */
  datatype Call =
    | UploadImage(filename: string, originalUrl: string, text: string)
    | AddFileCaption(filename: string, caption: Caption)
    | AddStructuredData(filename: string, sdc: seq<Statement>)
    | AddCategories(filename: string, categories: seq<string>)
    | RecordFileCreated(flickrPhotoId: string, pageTitle: string, pageId: string)

  /** The place of each kind of call in an upload. */
  function Rank(c: Call): nat {
    match c
    case UploadImage(_, _, _) => 0
    case AddFileCaption(_, _) => 1
    case AddStructuredData(_, _) => 2
    case AddCategories(_, _) => 3
    case RecordFileCreated(_, _, _) => 4
  }

  datatype SuccessfulUpload = SuccessfulUpload(id: string, title: string)

  /** The text of the KeyError `size_at` raises for a photo without an
   *  Original size. */
  const MissingOriginal := "'Original'"

  /** `upload_single_photo`, with the Wikitext the upload carries given as
   *  `wikitext`: the calls stop at the first one that raises. */
  function UploadSinglePhoto(api: WikimediaApi, request: UploadRequest, wikitext: Outcome<string>)
    : (r: (Outcome<SuccessfulUpload>, seq<Call>))
    ensures forall i :: 0 <= i < |r.1| ==> Rank(r.1[i]) == i
    ensures forall i :: 0 <= i < |r.1| && i < 4 ==> !r.1[i].RecordFileCreated? && r.1[i].filename == request.title
    ensures r.0.Done? <==> |r.1| == 5
    ensures r.0.Done? ==>
      StartsWith(r.0.value.title, "File:") && r.1[4] == RecordFileCreated(request.photo.id, r.0.value.title, r.0.value.id)
    ensures r.1 != [] ==>
      Photos.SizeAt(request.photo.sizes, "Original").Ok? && r.1[0].UploadImage? && r.1[0].originalUrl == Photos.SizeAt(request.photo.sizes, "Original").value.source
    ensures Photos.SizeAt(request.photo.sizes, "Original").Err? && wikitext.Done? ==> r.0 == Raised(MissingOriginal)
  {
    match wikitext
    case Raised(m) => (Raised(m), [])
    case Done(text) =>
      match Photos.SizeAt(request.photo.sizes, "Original")
      case Err(_) => (Raised(MissingOriginal), [])
      case Ok(original) =>
        var c0 := UploadImage(request.title, original.source, text);
        match api.uploadImage(request.title, original.source, text)
        case Raised(m) => (Raised(m), [c0])
        case Done(pageTitle) =>
          var c1 := AddFileCaption(request.title, request.caption);
          match api.addFileCaption(request.title, request.caption)
          case Raised(m) => (Raised(m), [c0, c1])
          case Done(pageId) =>
            var c2 := AddStructuredData(request.title, request.sdc);
            match api.addStructuredData(request.title, request.sdc)
            case Raised(m) => (Raised(m), [c0, c1, c2])
            case Done(_) =>
              var c3 := AddCategories(request.title, request.categories);
              match api.addCategoriesToPage(request.title, request.categories)
              case Raised(m) => (Raised(m), [c0, c1, c2, c3])
              case Done(_) =>
                var title := "File:" + pageTitle;
                assert title[..5] == "File:";
                (Done(SuccessfulUpload(pageId, title)), [c0, c1, c2, c3, RecordFileCreated(request.photo.id, title, pageId)])
  }

  // ---------------------------------------------------------------------
  // begin_upload
  // ---------------------------------------------------------------------

  /** The output a new batch starts with: every requested photo waiting. */
  function InitialOutput(requests: seq<UploadRequest>): (out: UploadBatchResults)
    ensures out.Keys == set r | r in requests :: r.photo.id
    ensures forall id :: id in out ==> out[id] == Waiting
  {
    map r | r in requests :: r.photo.id := Waiting
  }

  /** The keyring entry a batch's access token is kept under. */
  function KeyringId(userId: string, uploadId: string): string {
    "user-" + userId + "-id-" + uploadId
  }

  /** The system keyring's entries for Flickypedia. */
  class Keyring {
    var passwords: map<string, string>

    constructor()
      ensures passwords == map[]
    {
      passwords := map[];
    }

    method SetPassword(id: string, password: string)
      modifies this
      ensures passwords == old(passwords)[id := password]
    {
      passwords := passwords[id := password];
    }

    method GetPassword(id: string) returns (r: Option<string>)
      ensures id in passwords ==> r == Some(passwords[id])
      ensures id !in passwords ==> r == None
    {
      r := if id in passwords then Some(passwords[id]) else None;
    }

    /** Deleting a missing entry raises. */
    method DeletePassword(id: string) returns (deleted: bool)
      modifies this
      ensures deleted == (id in old(passwords))
      ensures passwords == old(passwords) - {id}
    {
      deleted := id in passwords;
      passwords := passwords - {id};
    }
  }

  /** `begin_upload`, with the fresh upload id `uploadId`, the user's
   *  fresh access token, and `freshId` as the id `start_task` would draw
   *  itself for an empty one. */
  method BeginUpload(q: FsQueue.FilesystemTaskQueue<UploadBatch, UploadBatchResults>, keyring: Keyring,
                     requests: seq<UploadRequest>, uploadId: string, freshId: string, userId: string,
                     accessToken: string, now: Timestamp)
    returns (id: string)
    modifies q, keyring
    ensures id == uploadId
    ensures keyring.passwords == old(keyring.passwords)[KeyringId(userId, uploadId) := accessToken]
    ensures q.dirs == FsQueue.Write(old(q.dirs),
      FsQueue.Task(FsQueue.NewTaskId(Some(uploadId), freshId), [FsQueue.TaskEvent(now, "Task created")], FsQueue.Waiting,
                   UploadBatch(KeyringId(userId, uploadId), requests), InitialOutput(requests)),
      old(q.writes))
    ensures q.writes == old(q.writes) + 1
  {
    var keyringId := "user-" + userId + "-id-" + uploadId;
    keyring.SetPassword(keyringId, accessToken);
    var taskOutput := map r | r in requests :: r.photo.id := Waiting;
    var _ := q.StartTask(UploadBatch(keyringId, requests), taskOutput, Some(uploadId), freshId, now);
    return uploadId;
  }

  // ---------------------------------------------------------------------
  // process_individual_task
  // ---------------------------------------------------------------------

  /** The result a photo's upload leaves in the output. */
  function Settled(o: Outcome<SuccessfulUpload>): (r: UploadResult)
    ensures o.Done? ==> r == Succeeded(o.value.id, o.value.title)
    ensures o.Raised? ==> r == Failed(o.message)
  {
    match o
    case Done(u) => Succeeded(u.id, u.title)
    case Raised(m) => Failed(m)
  }

  /** How the upload of each request ends: `upload_single_photo` with the
   *  given API client, whose Wikitext is `wikitextFor(request)`. */
  type Uploader = UploadRequest -> Outcome<SuccessfulUpload>

  function UploadWith(api: WikimediaApi, wikitextFor: UploadRequest -> Outcome<string>): Uploader {
    request => UploadSinglePhoto(api, request, wikitextFor(request)).0
  }

  /** The output after uploading `requests` in order, starting from `output`. */
  function OutputAfter(output: UploadBatchResults, requests: seq<UploadRequest>, upload: Uploader): (out: UploadBatchResults)
    ensures out.Keys == output.Keys + set r | r in requests :: r.photo.id
  {
    if requests == [] then output
    else
      var init := requests[..|requests| - 1];
      var last := requests[|requests| - 1];
      assert requests == init + [last];
      OutputAfter(output, init, upload)[last.photo.id := Settled(upload(last))]
  }

  /** The two events each request records. */
  function EventsFor(requests: seq<UploadRequest>, upload: Uploader): (events: seq<string>)
    ensures |events| == 2 * |requests|
  {
    if requests == [] then []
    else
      var init := requests[..|requests| - 1];
      var last := requests[|requests| - 1];
      EventsFor(init, upload)
        + ["Uploading photo " + last.photo.id,
           "Finished photo " + last.photo.id + " (" + StateName(Settled(upload(last))) + ")"]
  }

  function Descriptions(events: seq<FsQueue.TaskEvent>): (ds: seq<string>)
    ensures |ds| == |events| && forall k :: 0 <= k < |events| ==> ds[k] == events[k].description
  {
    if events == [] then [] else [events[0].description] + Descriptions(events[1..])
  }

  lemma DescriptionsAppend(a: seq<FsQueue.TaskEvent>, b: seq<FsQueue.TaskEvent>)
    ensures Descriptions(a + b) == Descriptions(a) + Descriptions(b)
  {
  }

  /** The task once `request` is marked in progress and its event
   *  recorded. */
  function Started(t: UploadTask, request: UploadRequest, clock: nat -> Timestamp): UploadTask {
    t.(taskOutput := t.taskOutput[request.photo.id := Uploading],
       events := t.events + [FsQueue.TaskEvent(clock(|t.events|), "Uploading photo " + request.photo.id)])
  }

  /** The task after the turn of `request`: its upload settled and the
   *  closing event recorded. */
  function AfterRequest(t: UploadTask, request: UploadRequest, upload: Uploader, clock: nat -> Timestamp): UploadTask {
    var result := Settled(upload(request));
    var s := Started(t, request, clock);
    s.(taskOutput := s.taskOutput[request.photo.id := result],
       events := s.events + [FsQueue.TaskEvent(clock(|s.events|),
         "Finished photo " + request.photo.id + " (" + StateName(result) + ")")])
  }

  /** The task after the turns of all of `requests`, in order. */
  function AfterRequests(t: UploadTask, requests: seq<UploadRequest>, upload: Uploader, clock: nat -> Timestamp): UploadTask {
    if requests == [] then t
    else AfterRequest(AfterRequests(t, requests[..|requests| - 1], upload, clock),
                      requests[|requests| - 1], upload, clock)
  }

  /** The "Uploading photo" event recorded on the marked task gives the
   *  started task. */
  lemma StartRecorded(t: UploadTask, request: UploadRequest, clock: nat -> Timestamp)
    ensures FsQueue.Recorded(t.(taskOutput := t.taskOutput[request.photo.id := Uploading]), None,
                             "Uploading photo " + request.photo.id, clock(|t.events|))
      == Started(t, request, clock)
  {
  }

  /** The "Finished photo" event recorded on the settled task gives the
   *  task after the turn. */
  lemma FinishRecorded(t: UploadTask, request: UploadRequest, upload: Uploader, clock: nat -> Timestamp)
    ensures var s := Started(t, request, clock);
      var result := Settled(upload(request));
      FsQueue.Recorded(s.(taskOutput := s.taskOutput[request.photo.id := result]), None,
                       "Finished photo " + request.photo.id + " (" + StateName(result) + ")", clock(|s.events|))
      == AfterRequest(t, request, upload, clock)
  {
  }

  /** The two writes of a turn keep the folders holding the task. */
  lemma TurnHoldsTask(d: FsQueue.Folders<UploadBatch, UploadBatchResults>, d0: FsQueue.Folders<UploadBatch, UploadBatchResults>,
                      t: UploadTask, request: UploadRequest, upload: Uploader, clock: nat -> Timestamp, w: nat,
                      d': FsQueue.Folders<UploadBatch, UploadBatchResults>, t': UploadTask)
    requires d' == FsQueue.Write(FsQueue.Write(d, Started(t, request, clock), w), t', w + 1)
    requires t' == AfterRequest(t, request, upload, clock)
    ensures FsQueue.HoldsTask(d, d0, t) ==> FsQueue.HoldsTask(d', d0, t')
  {
    if FsQueue.HoldsTask(d, d0, t) {
      var started := Started(t, request, clock);
      FsQueue.RewriteHoldsTask(d, d0, t, started, w);
      FsQueue.RewriteHoldsTask(FsQueue.Write(d, started, w), d0, started, AfterRequest(t, request, upload, clock), w + 1);
    }
  }

  /** The uploader: a task queue of batches and the keyring holding their
   *  access tokens. */
  class PhotoUploadQueue {
    const queue: FsQueue.FilesystemTaskQueue<UploadBatch, UploadBatchResults>
    const keyring: Keyring

    constructor(queue: FsQueue.FilesystemTaskQueue<UploadBatch, UploadBatchResults>, keyring: Keyring)
      ensures this.queue == queue && this.keyring == keyring
    {
      this.queue := queue;
      this.keyring := keyring;
    }

    /** One turn of the upload loop: mark the photo in progress, upload it,
     *  record how it ended; each event is written out. Folders that held
     *  the task as the turn found it hold it as the turn leaves it. */
    method UploadOne(t: UploadTask, request: UploadRequest, upload: Uploader, clock: nat -> Timestamp,
                     ghost d0: FsQueue.Folders<UploadBatch, UploadBatchResults>)
      returns (updated: UploadTask)
      modifies queue
      ensures updated == AfterRequest(t, request, upload, clock)
      ensures queue.writes == old(queue.writes) + 2
      ensures queue.dirs == FsQueue.Write(FsQueue.Write(old(queue.dirs), Started(t, request, clock), old(queue.writes)),
                                          updated, old(queue.writes) + 1)
      ensures FsQueue.HoldsTask(old(queue.dirs), d0, t) ==> FsQueue.HoldsTask(queue.dirs, d0, updated)
    {
      ghost var w := queue.writes;
      var photoId := request.photo.id;
      updated := t.(taskOutput := t.taskOutput[photoId := Uploading]);
      updated := queue.RecordTaskEvent(updated, None, "Uploading photo " + photoId, clock(|updated.events|));
      ghost var started := Started(t, request, clock);
      assert updated == started by {
        StartRecorded(t, request, clock);
      }
      var result := Settled(upload(request));
      updated := updated.(taskOutput := updated.taskOutput[photoId := result]);
      updated := queue.RecordTaskEvent(updated, None,
        "Finished photo " + photoId + " (" + StateName(result) + ")", clock(|updated.events|));
      assert updated == AfterRequest(t, request, upload, clock) by {
        FinishRecorded(t, request, upload, clock);
      }
      TurnHoldsTask(old(queue.dirs), d0, t, request, upload, clock, w, queue.dirs, updated);
    }

    /** The upload loop over all requests of the batch. Folders that held
     *  the task as the loop found it hold it as the loop leaves it. */
    method UploadAll(t: UploadTask, upload: Uploader, clock: nat -> Timestamp,
                     ghost d0: FsQueue.Folders<UploadBatch, UploadBatchResults>)
      returns (updated: UploadTask)
      modifies queue
      ensures updated == AfterRequests(t, t.taskInput.requests, upload, clock)
      ensures queue.writes == old(queue.writes) + 2 * |t.taskInput.requests|
      ensures FsQueue.HoldsTask(old(queue.dirs), d0, t) ==> FsQueue.HoldsTask(queue.dirs, d0, updated)
    {
      updated := t;
      ghost var requests := t.taskInput.requests;
      ghost var holds := FsQueue.HoldsTask(queue.dirs, d0, t);
      for i := 0 to |t.taskInput.requests|
        invariant updated == AfterRequests(t, requests[..i], upload, clock)
        invariant queue.writes == old(queue.writes) + 2 * i
        invariant holds ==> FsQueue.HoldsTask(queue.dirs, d0, updated)
      {
        updated := UploadOne(updated, t.taskInput.requests[i], upload, clock, d0);
        AfterRequestsStep(t, requests, i, upload, clock);
      }
      assert requests[..|requests|] == requests;
    }

    /** `process_individual_task`. The API client is built from the token
     *  read from the keyring (`apiFor`); `clock(k)` is the time at which
     *  the task's event number `k` is recorded. The token's entry is
     *  deleted before any upload, and a missing entry raises there.
     *  Otherwise every request is uploaded in turn, a failure marking only
     *  its own photo, and the updated task is returned. */
    method ProcessIndividualTask(task: UploadTask, apiFor: Option<string> -> WikimediaApi,
                                 wikitextFor: UploadRequest -> Outcome<string>, clock: nat -> Timestamp)
      returns (updated: UploadTask, raised: Option<string>)
      modifies queue, keyring
      ensures keyring.passwords == old(keyring.passwords) - {task.taskInput.keyringId}
      ensures raised.Some? <==> task.taskInput.keyringId !in old(keyring.passwords)
      ensures var begun := FsQueue.Recorded(task, Some(FsQueue.InProgress), "Starting to upload photos", clock(|task.events|));
        && (raised.Some? ==> updated == begun)
        && (raised.None? ==>
              updated == AfterRequests(begun, task.taskInput.requests,
                                       UploadWith(apiFor(Some(old(keyring.passwords)[task.taskInput.keyringId])), wikitextFor), clock))
      ensures FsQueue.Consistent(old(queue.dirs)) ==> FsQueue.HoldsTask(queue.dirs, old(queue.dirs), updated)
    {
      var keyringId := task.taskInput.keyringId;
      updated := queue.RecordTaskEvent(task, Some(FsQueue.InProgress), "Starting to upload photos", clock(|task.events|));
      if FsQueue.Consistent(old(queue.dirs)) {
        FsQueue.WriteHoldsTask(old(queue.dirs), updated, old(queue.writes));
      }
      var accessToken := keyring.GetPassword(keyringId);
      var deleted := keyring.DeletePassword(keyringId);
      if !deleted {
        return updated, Some("PasswordDeleteError");
      }
      var api := apiFor(accessToken);
      updated := UploadAll(updated, UploadWith(api, wikitextFor), clock, old(queue.dirs));
      return updated, None;
    }
  }

  /** The turns of the first `i + 1` requests are those of the first `i`
   *  and then the turn of request `i`. */
  lemma AfterRequestsStep(t: UploadTask, requests: seq<UploadRequest>, i: nat, upload: Uploader, clock: nat -> Timestamp)
    requires i < |requests|
    ensures AfterRequests(t, requests[..i + 1], upload, clock)
      == AfterRequest(AfterRequests(t, requests[..i], upload, clock), requests[i], upload, clock)
  {
    assert requests[..i + 1][..i] == requests[..i];
  }

  /** A turn keeps the task's id, input and state. */
  lemma {:induction false} AfterRequestsKeep(t: UploadTask, requests: seq<UploadRequest>, upload: Uploader, clock: nat -> Timestamp)
    ensures var u := AfterRequests(t, requests, upload, clock);
      u.id == t.id && u.state == t.state && u.taskInput == t.taskInput
  {
    if requests != [] {
      AfterRequestsKeep(t, requests[..|requests| - 1], upload, clock);
    }
  }

  /** The turns of a batch leave the output `OutputAfter` computes. */
  lemma {:induction false} AfterRequestsOutput(t: UploadTask, requests: seq<UploadRequest>, upload: Uploader,
                                               clock: nat -> Timestamp)
    ensures AfterRequests(t, requests, upload, clock).taskOutput == OutputAfter(t.taskOutput, requests, upload)
  {
    if requests != [] {
      AfterRequestsOutput(t, requests[..|requests| - 1], upload, clock);
    }
  }

  /** The two events the turn of `request` records, when the task already
   *  has `n` events. */
  function TurnEvents(n: nat, request: UploadRequest, upload: Uploader, clock: nat -> Timestamp)
    : seq<FsQueue.TaskEvent>
  {
    [FsQueue.TaskEvent(clock(n), "Uploading photo " + request.photo.id),
     FsQueue.TaskEvent(clock(n + 1), "Finished photo " + request.photo.id + " (" + StateName(Settled(upload(request))) + ")")]
  }

  lemma AfterRequestAppends(t: UploadTask, request: UploadRequest, upload: Uploader, clock: nat -> Timestamp)
    ensures AfterRequest(t, request, upload, clock).events == t.events + TurnEvents(|t.events|, request, upload, clock)
  {
  }

  /** The turns of a batch keep the earlier events and add two per
   *  request, each at its clock time. */
  lemma {:induction false} AfterRequestsTimes(t: UploadTask, requests: seq<UploadRequest>, upload: Uploader,
                                              clock: nat -> Timestamp)
    ensures var u := AfterRequests(t, requests, upload, clock);
      && |u.events| == |t.events| + 2 * |requests| && u.events[..|t.events|] == t.events
      && forall k :: |t.events| <= k < |u.events| ==> u.events[k].time == clock(k)
  {
    if requests != [] {
      var init := requests[..|requests| - 1];
      var last := requests[|requests| - 1];
      var v := AfterRequests(t, init, upload, clock);
      AfterRequestsTimes(t, init, upload, clock);
      var e := TurnEvents(|v.events|, last, upload, clock);
      assert AfterRequests(t, requests, upload, clock).events == v.events + e by {
        AfterRequestAppends(v, last, upload, clock);
      }
      TimedExtension(t.events, v.events, e, clock);
    }
  }

  /** Two events stamped at the next two clock times extend a timed
   *  history. */
  lemma TimedExtension(before: seq<FsQueue.TaskEvent>, history: seq<FsQueue.TaskEvent>, e: seq<FsQueue.TaskEvent>,
                       clock: nat -> Timestamp)
    requires |before| <= |history| && history[..|before|] == before
    requires forall k :: |before| <= k < |history| ==> history[k].time == clock(k)
    requires |e| == 2 && e[0].time == clock(|history|) && e[1].time == clock(|history| + 1)
    ensures (history + e)[..|before|] == before
    ensures forall k :: |before| <= k < |history + e| ==> (history + e)[k].time == clock(k)
  {
    assert (history + e)[..|before|] == history[..|before|];
    forall k | |before| <= k < |history + e|
      ensures (history + e)[k].time == clock(k)
    {
      if k >= |history| {
        assert (history + e)[k] == e[k - |history|];
      }
    }
  }

  /** The descriptions of the events the turns of a batch add are those
   *  `EventsFor` lists. */
  lemma {:induction false} AfterRequestsEvents(t: UploadTask, requests: seq<UploadRequest>, upload: Uploader,
                                               clock: nat -> Timestamp)
    ensures Descriptions(AfterRequests(t, requests, upload, clock).events)
      == Descriptions(t.events) + EventsFor(requests, upload)
  {
    if requests != [] {
      var init := requests[..|requests| - 1];
      AfterRequestsEvents(t, init, upload, clock);
      var v := AfterRequests(t, init, upload, clock);
      var u := AfterRequests(t, requests, upload, clock);
      var last := requests[|requests| - 1];
      var evs := TurnEvents(|v.events|, last, upload, clock);
      AfterRequestAppends(v, last, upload, clock);
      assert u.events == v.events + evs;
      DescriptionsAppend(v.events, evs);
    }
  }

  /** After a batch, the result of each photo is that of its own upload
   *  (the last request for it, if it was requested twice): a failure is
   *  confined to its photo. */
  lemma {:induction false} PhotoResultIsOwn(output: UploadBatchResults, requests: seq<UploadRequest>, upload: Uploader, i: nat)
    requires i < |requests|
    requires forall j :: i < j < |requests| ==> requests[j].photo.id != requests[i].photo.id
    ensures OutputAfter(output, requests, upload)[requests[i].photo.id]
      == Settled(upload(requests[i]))
  {
    if i < |requests| - 1 {
      var init := requests[..|requests| - 1];
      assert init[i] == requests[i];
      PhotoResultIsOwn(output, init, upload, i);
    }
  }

  /** A photo that was not requested keeps its result. */
  lemma {:induction false} UnrequestedUnchanged(output: UploadBatchResults, requests: seq<UploadRequest>, upload: Uploader, id: string)
    requires id in output && forall r :: r in requests ==> r.photo.id != id
    ensures OutputAfter(output, requests, upload)[id] == output[id]
  {
    if requests != [] {
      var init := requests[..|requests| - 1];
      assert forall r :: r in init ==> r in requests;
      UnrequestedUnchanged(output, init, upload, id);
    }
  }

  /** A batch that began with `begin_upload` ends with every photo settled:
   *  succeeded or failed, none still waiting or in progress. */
  lemma {:induction false} BatchSettles(requests: seq<UploadRequest>, upload: Uploader, id: string)
    requires id in InitialOutput(requests)
    ensures var out := OutputAfter(InitialOutput(requests), requests, upload);
      id in out && (out[id].Succeeded? || out[id].Failed?)
  {
    var r :| r in requests && r.photo.id == id;
    var i :| 0 <= i < |requests| && requests[i] == r;
    LastRequestFor(requests, i);
    var k :| i <= k < |requests| && requests[k].photo.id == id
      && forall j :: k < j < |requests| ==> requests[j].photo.id != id;
    PhotoResultIsOwn(InitialOutput(requests), requests, upload, k);
  }

  /** Every requested photo has a last request. */
  lemma {:induction false} LastRequestFor(requests: seq<UploadRequest>, i: nat)
    requires i < |requests|
    ensures exists k :: (&& i <= k < |requests| && requests[k].photo.id == requests[i].photo.id
      && forall j :: k < j < |requests| ==> requests[j].photo.id != requests[i].photo.id)
    decreases |requests| - i
  {
    if exists j :: i < j < |requests| && requests[j].photo.id == requests[i].photo.id {
      var j :| i < j < |requests| && requests[j].photo.id == requests[i].photo.id;
      LastRequestFor(requests, j);
    } else {
      assert i <= i < |requests| && requests[i].photo.id == requests[i].photo.id;
    }
  }

  /** A successful upload is reported under a "File:" title, and the file
   *  is recorded in the duplicate index under that title and page id; a
   *  failed one records nothing. */
  lemma SuccessRecorded(api: WikimediaApi, request: UploadRequest, wikitext: Outcome<string>)
    ensures var (o, calls) := UploadSinglePhoto(api, request, wikitext);
      && (o.Done? ==>
            StartsWith(o.value.title, "File:") && RecordFileCreated(request.photo.id, o.value.title, o.value.id) in calls)
      && (o.Raised? ==> forall c :: c in calls ==> !c.RecordFileCreated?)
  {
    var (o, calls) := UploadSinglePhoto(api, request, wikitext);
    if o.Raised? {
      forall c | c in calls ensures !c.RecordFileCreated? {
        var k :| 0 <= k < |calls| && calls[k] == c;
      }
    } else {
      assert calls[4] in calls;
    }
  }
}
