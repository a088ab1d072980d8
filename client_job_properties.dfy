/**
 * What each handler of the `ImageGenerator` component promises about the job list and
 * the three dictionaries, stated over the step functions its methods are proved to follow.
 */
module ClientJobProperties {
  import opened Wrappers
  import opened Text
  import opened Images
  import opened PromptSettings
  import opened ClientJobs

  /** The two dictionaries agree on every key other than `id`. */
  ghost predicate SameElsewhere<V>(m: map<string, V>, m': map<string, V>, id: string) {
    forall k :: k != id ==> (k in m <==> k in m') && (k in m ==> m[k] == m'[k])
  }

  /** Only the entries with id `id` may differ. */
  predicate OthersUnchanged(images: seq<GeneratedImage>, images': seq<GeneratedImage>, id: string) {
    |images'| == |images| && forall i :: 0 <= i < |images| && images[i].id != id ==> images'[i] == images[i]
  }

  // ---------------------------------------------------------------------------
  // Timers

  /** `scheduleNextPoll` leaves exactly one timer for the job, for this hash, replacing any earlier
    * one, and drops the job's start time; nothing else changes. */
  lemma ScheduleNextPollReplacesTimer(s: ClientState, hash: string, id: string, now: int)
    ensures var t := ScheduleNextPollStep(s, hash, id, now);
      && id in t.pollingTimers && t.pollingTimers[id] == ScheduledPoll(hash, now + PollInterval)
      && SameElsewhere(s.pollingTimers, t.pollingTimers, id)
      && id !in t.pollStartTimes && SameElsewhere(s.pollStartTimes, t.pollStartTimes, id)
      && t.images == s.images && t.progressTrackers == s.progressTrackers && t.settings == s.settings
  {
  }

  /** The 60-second check fires only against a start time stamped by an earlier call. */
  lemma TimeoutNeedsEarlierStart(starts: map<string, int>, id: string, now: int)
    ensures PollTimedOut(starts, id, now) <==> id in starts && starts[id] != 0 && now - starts[id] > MaxPollTime
  {
  }

  /** `scheduleNextPoll` deletes the start time, so the poll it schedules re-stamps it and
    * never reaches the timeout, however late it runs. */
  lemma RescheduledPollNeverTimesOut(s: ClientState, hash: string, id: string, now: int, later: int)
    ensures !PollTimedOut(ScheduleNextPollStep(s, hash, id, now).pollStartTimes, id, later)
  {
    TimeoutNeedsEarlierStart(ScheduleNextPollStep(s, hash, id, now).pollStartTimes, id, later);
  }

  // ---------------------------------------------------------------------------
  // One poll step

  /** `done` with a URL completes the job at 100 with that URL and the reply's hash, and leaves
    * it no timer and no start time. */
  lemma PollDoneWithUrl(s: ClientState, hash: string, id: string, r: StatusReply, now: int)
    requires r.status == StatusDone && Present(r.resultUrl)
    ensures var t := HandlePollResponseStep(s, hash, id, Replied(r), now);
      && OthersUnchanged(s.images, t.images, id)
      && (forall i :: 0 <= i < |s.images| && s.images[i].id == id ==>
            && t.images[i].status == Completed && t.images[i].progress == Some(100)
            && t.images[i].imageUrl == r.resultUrl && t.images[i].hash == r.hash && t.images[i].actions == r.nextActions)
      && id !in t.pollingTimers && id !in t.pollStartTimes
  {
  }

  /** `done` without a URL stops polling without completing the job: no timer is scheduled, and
    * the job's status is what the reported progress, if any, made it. */
  lemma PollDoneWithoutUrl(s: ClientState, hash: string, id: string, r: StatusReply, now: int)
    requires r.status == StatusDone && !Present(r.resultUrl)
    ensures var t := HandlePollResponseStep(s, hash, id, Replied(r), now);
      && t.pollingTimers == s.pollingTimers && t.pollStartTimes == s.pollStartTimes
      && OthersUnchanged(s.images, t.images, id)
      && (forall i :: 0 <= i < |s.images| && s.images[i].id == id ==>
            t.images[i].status == if r.progress.None? then s.images[i].status
                                  else if r.progress.value >= 100 then Completed else Pending)
  {
  }

  /** `error` fails the job with `status_reason`, or `'Unknown error'`, ignores any progress in the
    * reply, and removes the job's timer, start time and tracker. */
  lemma PollErrorFails(s: ClientState, hash: string, id: string, r: StatusReply, now: int)
    requires r.status == StatusError
    ensures var t := HandlePollResponseStep(s, hash, id, Replied(r), now);
      && OthersUnchanged(s.images, t.images, id)
      && (forall i :: 0 <= i < |s.images| && s.images[i].id == id ==>
            && t.images[i].status == Failed && t.images[i].progress == s.images[i].progress
            && t.images[i].error == Some(if Present(r.statusReason) then r.statusReason.value else "Unknown error"))
      && id !in t.pollingTimers && id !in t.pollStartTimes && id !in t.progressTrackers
      && SameElsewhere(s.pollingTimers, t.pollingTimers, id)
      && SameElsewhere(s.progressTrackers, t.progressTrackers, id)
  {
  }

  /** `sent`, `waiting`, `progress` and `queued` leave exactly one timer for the job, polling the
    * same hash a second later, in place of any earlier one. The job itself takes the reported
    * progress, if any: pending below 100, and completed, though still polled, at 100 or more. */
  lemma PollContinues(s: ClientState, hash: string, id: string, r: StatusReply, now: int)
    requires r.status in {StatusSent, StatusWaiting, StatusProgress, StatusQueued}
    ensures var t := HandlePollResponseStep(s, hash, id, Replied(r), now);
      && id in t.pollingTimers && t.pollingTimers[id] == ScheduledPoll(hash, now + PollInterval)
      && SameElsewhere(s.pollingTimers, t.pollingTimers, id)
      && id !in t.pollStartTimes
      && OthersUnchanged(s.images, t.images, id)
      && (forall i :: 0 <= i < |s.images| && s.images[i].id == id ==>
            t.images[i] == if r.progress.None? then s.images[i]
                           else s.images[i].(progress := Some(Min(r.progress.value, 100)),
                                             status := if r.progress.value >= 100 then Completed else Pending))
  {
  }

  /** A failed request fails the job with the exception's message, or `'Network error'`. */
  lemma PollRequestFails(s: ClientState, hash: string, id: string, message: Option<string>, now: int)
    ensures var t := HandlePollResponseStep(s, hash, id, PollFailed(message), now);
      && OthersUnchanged(s.images, t.images, id)
      && (forall i :: 0 <= i < |s.images| && s.images[i].id == id ==>
            t.images[i].status == Failed && t.images[i].error == Some(message.GetOr("Network error")))
      && id !in t.pollingTimers && id !in t.pollStartTimes && id !in t.progressTrackers
  {
  }

  /** A poll that finds its start time over 60 seconds old fails the job with `'Generation timeout'`
    * and sends no request. */
  lemma PollTimesOut(s: ClientState, hash: string, id: string, outcome: PollOutcome, now: int)
    requires PollTimedOut(s.pollStartTimes, id, now)
    ensures var t := PollImageStatusStep(s, hash, id, outcome, now);
      && OthersUnchanged(s.images, t.images, id)
      && (forall i :: 0 <= i < |s.images| && s.images[i].id == id ==>
            t.images[i].status == Failed && t.images[i].error == Some("Generation timeout"))
      && id !in t.pollingTimers && id !in t.pollStartTimes && id !in t.progressTrackers
  {
  }

  // ---------------------------------------------------------------------------
  // Progress and errors

  /** `updateProgress` caps the job's progress at 100 (with no lower bound), completes it exactly
    * when the value is at least 100, counts one more attempt, and changes nothing else. */
  lemma UpdateProgressOnlyMatching(s: ClientState, id: string, p: int, now: int)
    ensures var t := UpdateProgressStep(s, id, p, now);
      && OthersUnchanged(s.images, t.images, id)
      && (forall i :: 0 <= i < |s.images| && s.images[i].id == id ==>
            t.images[i] == s.images[i].(progress := Some(Min(p, 100)), status := if p >= 100 then Completed else Pending))
      && id in t.progressTrackers
      && t.progressTrackers[id].attempts == (if id in s.progressTrackers then s.progressTrackers[id].attempts else 0) + 1
      && t.progressTrackers[id].lastUpdateTime == now
      && t.progressTrackers[id].startTime == (if id in s.progressTrackers then s.progressTrackers[id].startTime else now)
      && SameElsewhere(s.progressTrackers, t.progressTrackers, id)
      && t.pollingTimers == s.pollingTimers && t.pollStartTimes == s.pollStartTimes
  {
  }

  /** `handleError` fails the job with the message, keeping its other fields, and removes its
    * timer, start time and tracker; every other job and key stays as it was. */
  lemma HandleErrorOnlyMatching(s: ClientState, id: string, message: string)
    ensures var t := HandleErrorStep(s, id, message);
      && OthersUnchanged(s.images, t.images, id)
      && (forall i :: 0 <= i < |s.images| && s.images[i].id == id ==>
            t.images[i] == s.images[i].(status := Failed, error := Some(message)))
      && id !in t.pollingTimers && id !in t.pollStartTimes && id !in t.progressTrackers
      && SameElsewhere(s.pollingTimers, t.pollingTimers, id)
      && SameElsewhere(s.pollStartTimes, t.pollStartTimes, id)
      && SameElsewhere(s.progressTrackers, t.progressTrackers, id)
  {
  }

  // ---------------------------------------------------------------------------
  // Generating

  /** A blank prompt is ignored. */
  lemma GenerateBlankPrompt(s: ClientState, newId: string, outcome: GenerateOutcome, now: int)
    requires Trim(s.settings.prompt) == ""
    ensures GenerateImageStep(s, newId, outcome, now) == s
  {
  }

  /** `generateImage` puts a new job with the trimmed prompt in front of the others and clears the
    * prompt, leaving the other settings and the progress trackers alone; the job fails with the reply's error, `'Missing hash from API'` or the exception's
    * message, or gets the hash and a start time. */
  lemma GenerateAddsJob(s: ClientState, newId: string, outcome: GenerateOutcome, now: int)
    requires Trim(s.settings.prompt) != ""
    requires forall j :: 0 <= j < |s.images| ==> s.images[j].id != newId
    requires newId !in s.pollStartTimes
    ensures var t := GenerateImageStep(s, newId, outcome, now);
      && |t.images| == |s.images| + 1 && t.images[1..] == s.images
      && t.images[0].id == newId && t.images[0].prompt == Trim(s.settings.prompt)
      && t.images[0].parentId == None
      && t.settings == s.settings.(prompt := "") && !t.isGenerating
      && t.progressTrackers == s.progressTrackers
      && (GeneratePatch(outcome).Fail? ==>
            t.images[0].status == Failed && t.images[0].error == Some(GeneratePatch(outcome).message)
            && t.pollStartTimes == s.pollStartTimes && t.pollingTimers == s.pollingTimers)
      && (GeneratePatch(outcome).SetHash? ==>
            t.images[0].status == Pending && t.images[0].progress == Some(0)
            && t.images[0].hash == Some(GeneratePatch(outcome).hash)
            && t.pollStartTimes == s.pollStartTimes[newId := now] && t.pollingTimers == s.pollingTimers)
  {
    var text := Trim(s.settings.prompt);
    var l := [NewImage(newId, text)] + s.images;
    var l' := MapImages(l, newId, GeneratePatch(outcome));
    forall j | 1 <= j < |l| ensures l'[j] == s.images[j - 1] {
      assert l[j] == s.images[j - 1];
    }
    assert l'[1..] == s.images;
  }

  /** The three ways `generateImage` can fail, and the one way it goes on to poll. */
  lemma GeneratePatchCases(outcome: GenerateOutcome)
    ensures GeneratePatch(outcome).SetHash? <==> outcome.Generated? && !Present(outcome.error) && Present(outcome.hash)
    ensures GeneratePatch(outcome).SetHash? ==> GeneratePatch(outcome).hash == outcome.hash.value
    ensures outcome.Generated? && Present(outcome.error) ==> GeneratePatch(outcome) == Fail(outcome.error.value)
    ensures outcome.Generated? && !Present(outcome.error) && !Present(outcome.hash)
      ==> GeneratePatch(outcome) == Fail("Missing hash from API")
    ensures outcome.GenerateFailed? ==> GeneratePatch(outcome) == Fail(outcome.message.GetOr("Failed to generate image"))
  {
  }

  // ---------------------------------------------------------------------------
  // Upscales and variations

  /** A choice outside 1-4, a missing parent or a parent without hash: no request, no change. */
  lemma DerivativeIgnored(s: ClientState, kind: DerivativeKind, imageId: string, choice: int,
                          outcome: DerivativeOutcome, newId: string, now: int)
    requires || choice < 1 || choice > 4
             || FindImage(s.images, imageId).None?
             || !Present(FindImage(s.images, imageId).value.hash)
    ensures HandleDerivativeStep(s, kind, imageId, choice, outcome, newId, now) == s
  {
  }

  /** A returned hash inserts exactly one pending job right after its parent: the new job records
    * the parent, the kind, the choice and the hash, every other job keeps its order, and the new
    * job gets a start time. */
  lemma DerivativeInserted(s: ClientState, kind: DerivativeKind, imageId: string, choice: int, hash: string,
                           newId: string, now: int)
    requires DerivativeParent(s, imageId, choice).Some? && hash != ""
    requires newId !in s.pollStartTimes
    ensures var t := HandleDerivativeStep(s, kind, imageId, choice, DerivativeReplied(Some(hash)), newId, now);
      var i := FindIndex(s.images, imageId);
      && 0 <= i && |t.images| == |s.images| + 1
      && t.images[..i + 1] == s.images[..i + 1] && t.images[i + 2..] == s.images[i + 1..]
      && RemoveAt(t.images, i + 1) == s.images
      && var child := t.images[i + 1];
      && child.id == newId && child.status == Pending && child.progress == Some(0) && child.hash == Some(hash)
      && child.parentId == Some(imageId) && child.imageType == Some(KindType(kind)) && child.choice == Some(choice)
      && child.prompt == DerivativePrompt(kind, choice, s.images[i].prompt)
      && t.pollStartTimes == s.pollStartTimes[newId := now] && t.pollingTimers == s.pollingTimers
  {
    var i := FindIndex(s.images, imageId);
    var parent := s.images[i];
    assert DerivativeParent(s, imageId, choice) == Some(parent);
    var child := NewDerivative(kind, newId, imageId, parent, choice as nat, hash);
    DerivativeReplyInserts(s, kind, imageId, parent, choice as nat, hash, newId, now);
    InsertDerivativeRemovable(s.images, imageId, child);
  }

  /** Taking the new entry out again gives back the list. */
  lemma InsertDerivativeRemovable(images: seq<GeneratedImage>, parentImageId: string, child: GeneratedImage)
    requires FindIndex(images, parentImageId) != -1
    ensures RemoveAt(InsertDerivative(images, parentImageId, child), FindIndex(images, parentImageId) + 1) == images
  {
    var i := FindIndex(images, parentImageId);
    var r := InsertDerivative(images, parentImageId, child);
    assert RemoveAt(r, i + 1) == r[..i + 1] + r[i + 2..];
    assert images[..i + 1] + images[i + 1..] == images;
  }

  /** The reply step for a returned hash: the insertion, then the start of the new job's polling. */
  lemma DerivativeReplyInserts(s: ClientState, kind: DerivativeKind, imageId: string, parent: GeneratedImage,
                               choice: nat, hash: string, newId: string, now: int)
    requires hash != "" && newId !in s.pollStartTimes
    ensures DerivativeResponseStep(s, kind, imageId, parent, choice, DerivativeReplied(Some(hash)), newId, now)
      == s.(images := InsertDerivative(s.images, imageId, NewDerivative(kind, newId, imageId, parent, choice, hash)),
            pollStartTimes := s.pollStartTimes[newId := now])
  {
    assert !PollTimedOut(s.pollStartTimes, newId, now);
  }

  /** When the parent has left the list by the time the reply comes, the list stays as it is. */
  lemma DerivativeParentGone(s: ClientState, kind: DerivativeKind, imageId: string, parent: GeneratedImage,
                             choice: nat, hash: string, newId: string, now: int)
    requires FindIndex(s.images, imageId) == -1 && hash != ""
    requires newId !in s.pollStartTimes
    ensures DerivativeResponseStep(s, kind, imageId, parent, choice, DerivativeReplied(Some(hash)), newId, now).images == s.images
  {
  }

  /** A failed upscale or variation request marks the parent job failed, and adds no job. */
  lemma DerivativeFailureFailsParent(s: ClientState, kind: DerivativeKind, imageId: string, parent: GeneratedImage,
                                     choice: nat, outcome: DerivativeOutcome, newId: string, now: int)
    requires outcome.HttpError? || outcome.DerivativeFailed?
    ensures var t := DerivativeResponseStep(s, kind, imageId, parent, choice, outcome, newId, now);
      && OthersUnchanged(s.images, t.images, imageId)
      && (forall i :: 0 <= i < |s.images| && s.images[i].id == imageId ==>
            t.images[i].status == Failed
            && t.images[i].error == Some(if outcome.HttpError? then "HTTP error! status: " + DecimalString(outcome.statusCode)
                                         else outcome.message.GetOr(FailureMessage(kind))))
      && imageId !in t.pollingTimers && imageId !in t.progressTrackers
  {
  }
}
