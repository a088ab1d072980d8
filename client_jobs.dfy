/**
 * The job-list state machine of the `ImageGenerator` component in
 * src/components/ImageGenerator.tsx: the list of jobs and the three dictionaries
 * `pollingTimers`, `pollStartTimes` and `progressTrackers`, and the handlers that
 * update them.
 *
 * Replies of the service, the current time and fresh ids are parameters. A pending
 * `setTimeout` is an entry of `pollingTimers` recording the hash it will poll and when.
 * `pollImageStatus` and the derivative handlers have a separate method for the part
 * after their `await`, which takes the reply as a parameter; `generateImage` runs in
 * one call, with its reply a parameter of that call.
 */
module ClientJobs {
  import opened Wrappers
  import opened Text
  import opened Images
  import opened PromptSettings

  /** `MAX_POLL_TIME`, in milliseconds. */
  const MaxPollTime: int := 60000

  /** The delay `scheduleNextPoll` passes to `setTimeout`, in milliseconds. */
  const PollInterval: int := 1000

  /** A pending `setTimeout(() => pollImageStatus(hash, id), 1000)`. */
  datatype ScheduledPoll = ScheduledPoll(hash: string, due: int)

  datatype ProgressTracker = ProgressTracker(startTime: int, lastUpdateTime: int, attempts: int)

  /** The `status` of a status reply; `StatusOther` is any value the `switch` has no case for. */
  datatype PollStatus = StatusSent | StatusWaiting | StatusProgress | StatusDone | StatusError | StatusQueued | StatusOther

  /** The JSON of a status reply. The status route sends a number for `progress`. */
  datatype StatusReply = StatusReply(
    hash: Option<string>,
    status: PollStatus,
    progress: Option<int>,
    resultUrl: Option<string>,
    statusReason: Option<string>,
    nextActions: Option<seq<Action>>)

  /** How the status request ended: a reply, or an exception, with the message when it is an `Error`. */
  datatype PollOutcome = Replied(reply: StatusReply) | PollFailed(message: Option<string>)

  /** How the generate request ended: a reply with its `error` and `hash` fields, or an exception. */
  datatype GenerateOutcome = Generated(error: Option<string>, hash: Option<string>) | GenerateFailed(message: Option<string>)

  /** How an upscale or variation request ended: a 2xx reply with its `hash`, a non-2xx status, or an exception. */
  datatype DerivativeOutcome =
    | DerivativeReplied(hash: Option<string>)
    | HttpError(statusCode: nat)
    | DerivativeFailed(message: Option<string>)

  /** The component's state that the job handlers read and write. */
  datatype ClientState = ClientState(
    settings: Settings,
    isGenerating: bool,
    images: seq<GeneratedImage>,
    pollingTimers: map<string, ScheduledPoll>,
    pollStartTimes: map<string, int>,
    progressTrackers: map<string, ProgressTracker>)

  /** The `newImage` of `generateImage`. */
  function NewImage(id: string, prompt: string): GeneratedImage {
    GeneratedImage(id, Pending, None, prompt, None, Some(0), None, None, None, None, None)
  }

  // ---------------------------------------------------------------------------
  // The handlers as functions of the state

  function ClearPollingTimerStep(s: ClientState, id: string): ClientState {
    s.(pollingTimers := s.pollingTimers - {id}, pollStartTimes := s.pollStartTimes - {id})
  }

  function ScheduleNextPollStep(s: ClientState, hash: string, id: string, now: int): ClientState {
    var c := ClearPollingTimerStep(s, id);
    c.(pollingTimers := c.pollingTimers[id := ScheduledPoll(hash, now + PollInterval)])
  }

  function UpdateProgressStep(s: ClientState, id: string, progress: int, now: int): ClientState {
    var tracker := if id in s.progressTrackers then s.progressTrackers[id] else ProgressTracker(now, now, 0);
    s.(progressTrackers := s.progressTrackers[id := tracker.(lastUpdateTime := now, attempts := tracker.attempts + 1)],
       images := MapImages(s.images, id, SetProgress(progress)))
  }

  function HandleErrorStep(s: ClientState, id: string, message: string): ClientState {
    var c := ClearPollingTimerStep(s, id);
    c.(progressTrackers := c.progressTrackers - {id}, images := MapImages(c.images, id, Fail(message)))
  }

  /** `if (!pollStartTimes[id]) pollStartTimes[id] = now`: a missing or zero start time is replaced. */
  function StampStart(starts: map<string, int>, id: string, now: int): (r: map<string, int>)
    ensures id in r
  {
    if id !in starts || starts[id] == 0 then starts[id := now] else starts
  }

  /** The 60-second check of `pollImageStatus`, against the start time it has just stamped. */
  predicate PollTimedOut(starts: map<string, int>, id: string, now: int) {
    now - StampStart(starts, id, now)[id] > MaxPollTime
  }

  /** The part of `pollImageStatus` before its request. */
  function StartPollStep(s: ClientState, id: string, now: int): ClientState {
    var stamped := s.(pollStartTimes := StampStart(s.pollStartTimes, id, now));
    if PollTimedOut(s.pollStartTimes, id, now) then HandleErrorStep(stamped, id, "Generation timeout") else stamped
  }

  /** The message `handleError` gets for an `error` reply. */
  function ErrorReason(reply: StatusReply): string {
    if Present(reply.statusReason) then reply.statusReason.value else "Unknown error"
  }

  /** The part of `pollImageStatus` after its request. */
  function HandlePollResponseStep(s: ClientState, hash: string, id: string, outcome: PollOutcome, now: int): ClientState {
    match outcome
    case PollFailed(m) => HandleErrorStep(s, id, m.GetOr("Network error"))
    case Replied(r) =>
      var s1 := if r.status != StatusError && r.progress.Some? then UpdateProgressStep(s, id, r.progress.value, now) else s;
      match r.status
      case StatusDone =>
        if Present(r.resultUrl) then
          ClearPollingTimerStep(s1.(images := MapImages(s1.images, id, Complete(r.resultUrl.value, r.hash, r.nextActions))), id)
        else s1
      case StatusError => HandleErrorStep(s1, id, ErrorReason(r))
      case StatusOther => s1
      case _ => ScheduleNextPollStep(s1, hash, id, now)
  }

  /** `pollImageStatus` with its reply arriving at the same instant as the call. */
  function PollImageStatusStep(s: ClientState, hash: string, id: string, outcome: PollOutcome, now: int): ClientState {
    var s1 := StartPollStep(s, id, now);
    if PollTimedOut(s.pollStartTimes, id, now) then s1 else HandlePollResponseStep(s1, hash, id, outcome, now)
  }

  /** The patch the end of `generateImage` applies to the new entry; `SetHash` is the path that starts polling. */
  function GeneratePatch(outcome: GenerateOutcome): ImagePatch {
    match outcome
    case GenerateFailed(m) => Fail(m.GetOr("Failed to generate image"))
    case Generated(e, h) =>
      if Present(e) then Fail(e.value)
      else if Present(h) then SetHash(h.value)
      else Fail("Missing hash from API")
  }

  /** The new entry put in front of the list, with the outcome's patch applied. */
  function AddImage(s: ClientState, newId: string, text: string, patch: ImagePatch): ClientState {
    s.(images := MapImages([NewImage(newId, text)] + s.images, newId, patch))
  }

  /** The `finally` block of `generateImage`. */
  function FinishGenerate(s: ClientState): ClientState {
    s.(isGenerating := false, settings := s.settings.(prompt := ""))
  }

  function GenerateImageStep(s: ClientState, newId: string, outcome: GenerateOutcome, now: int): ClientState {
    var text := Trim(s.settings.prompt);
    if text == "" then s
    else
      var patch := GeneratePatch(outcome);
      var s1 := AddImage(s, newId, text, patch);
      FinishGenerate(if patch.SetHash? then StartPollStep(s1, newId, now) else s1)
  }

  /** The guard of `handleUpscale`/`handleVariation`: the parent entry, when the choice is 1-4
    * and the entry is in the list with a hash. */
  function DerivativeParent(s: ClientState, imageId: string, choice: int): Option<GeneratedImage> {
    if choice < 1 || choice > 4 then None
    else match FindImage(s.images, imageId)
      case None => None
      case Some(img) => if Present(img.hash) then Some(img) else None
  }

  function FailureMessage(kind: DerivativeKind): string {
    match kind
    case UpscaleJob => "Failed to upscale image"
    case VariationJob => "Failed to create variation"
  }

  /** The part of a derivative handler after its request; `parent` is the entry the guard found. */
  function DerivativeResponseStep(s: ClientState, kind: DerivativeKind, imageId: string, parent: GeneratedImage,
                                  choice: nat, outcome: DerivativeOutcome, newId: string, now: int): ClientState {
    match outcome
    case HttpError(code) => HandleErrorStep(s, imageId, "HTTP error! status: " + DecimalString(code))
    case DerivativeFailed(m) => HandleErrorStep(s, imageId, m.GetOr(FailureMessage(kind)))
    case DerivativeReplied(h) =>
      if Present(h) then
        StartPollStep(AddChild(s, imageId, NewDerivative(kind, newId, imageId, parent, choice, h.value)), newId, now)
      else s
  }

  /** The state updater of a derivative handler applied to the list. */
  function AddChild(s: ClientState, parentImageId: string, child: GeneratedImage): ClientState {
    s.(images := InsertDerivative(s.images, parentImageId, child))
  }

  function HandleDerivativeStep(s: ClientState, kind: DerivativeKind, imageId: string, choice: int,
                                outcome: DerivativeOutcome, newId: string, now: int): ClientState {
    match DerivativeParent(s, imageId, choice)
    case None => s
    case Some(parent) => DerivativeResponseStep(s, kind, imageId, parent, choice as nat, outcome, newId, now)
  }

  // ---------------------------------------------------------------------------
  // The component

  class ImageGenerator {
    var settings: Settings
    var isGenerating: bool
    var images: seq<GeneratedImage>
    var pollingTimers: map<string, ScheduledPoll>
    var pollStartTimes: map<string, int>
    var progressTrackers: map<string, ProgressTracker>

    function State(): ClientState
      reads this
    {
      ClientState(settings, isGenerating, images, pollingTimers, pollStartTimes, progressTrackers)
    }

    /** The initial values of the `useState` and `useRef` hooks. */
    constructor()
      ensures State() == ClientState(Settings("", "", 0, "", false), false, [], map[], map[], map[])
    {
      settings := Settings("", "", 0, "", false);
      isGenerating := false;
      images := [];
      pollingTimers := map[];
      pollStartTimes := map[];
      progressTrackers := map[];
    }

    method ClearPollingTimer(id: string)
      modifies this
      ensures State() == ClearPollingTimerStep(old(State()), id)
    {
      if id in pollingTimers {
        pollingTimers := pollingTimers - {id};
      }
      pollStartTimes := pollStartTimes - {id};
    }

    method ScheduleNextPoll(hash: string, id: string, now: int)
      modifies this
      ensures State() == ScheduleNextPollStep(old(State()), hash, id, now)
    {
      ClearPollingTimer(id);
      pollingTimers := pollingTimers[id := ScheduledPoll(hash, now + PollInterval)];
    }

    method UpdateProgress(id: string, progress: int, now: int)
      modifies this
      ensures State() == UpdateProgressStep(old(State()), id, progress, now)
    {
      var tracker := if id in progressTrackers then progressTrackers[id] else ProgressTracker(now, now, 0);
      progressTrackers := progressTrackers[id := tracker.(lastUpdateTime := now, attempts := tracker.attempts + 1)];
      images := MapImages(images, id, SetProgress(progress));
    }

    method HandleError(id: string, message: string)
      modifies this
      ensures State() == HandleErrorStep(old(State()), id, message)
    {
      ClearPollingTimer(id);
      progressTrackers := progressTrackers - {id};
      images := MapImages(images, id, Fail(message));
    }

    /** The part of `pollImageStatus` before its request; `timedOut` means it stopped there. */
    method StartPoll(id: string, now: int) returns (timedOut: bool)
      modifies this
      ensures timedOut == PollTimedOut(old(pollStartTimes), id, now)
      ensures State() == StartPollStep(old(State()), id, now)
    {
      if id !in pollStartTimes || pollStartTimes[id] == 0 {
        pollStartTimes := pollStartTimes[id := now];
      }
      timedOut := now - pollStartTimes[id] > MaxPollTime;
      if timedOut {
        HandleError(id, "Generation timeout");
      }
    }

    /** The part of `pollImageStatus` after its request. */
    method HandlePollResponse(hash: string, id: string, outcome: PollOutcome, now: int)
      modifies this
      ensures State() == HandlePollResponseStep(old(State()), hash, id, outcome, now)
    {
      match outcome
      case PollFailed(m) =>
        HandleError(id, m.GetOr("Network error"));
      case Replied(r) =>
        if r.status != StatusError && r.progress.Some? {
          UpdateProgress(id, r.progress.value, now);
        }
        match r.status
        case StatusDone =>
          if Present(r.resultUrl) {
            images := MapImages(images, id, Complete(r.resultUrl.value, r.hash, r.nextActions));
            ClearPollingTimer(id);
          }
        case StatusError =>
          HandleError(id, ErrorReason(r));
        case StatusOther =>
        case _ =>
          ScheduleNextPoll(hash, id, now);
    }

    method PollImageStatus(hash: string, id: string, outcome: PollOutcome, now: int)
      modifies this
      ensures State() == PollImageStatusStep(old(State()), hash, id, outcome, now)
    {
      var timedOut := StartPoll(id, now);
      if !timedOut {
        HandlePollResponse(hash, id, outcome, now);
      }
    }

    method GenerateImage(newId: string, outcome: GenerateOutcome, now: int)
      modifies this
      ensures State() == GenerateImageStep(old(State()), newId, outcome, now)
    {
      var text := Trim(settings.prompt);
      if text == "" {
        return;
      }
      var patch := GeneratePatch(outcome);
      AddGeneratedImage(newId, text, patch);
      if patch.SetHash? {
        var _ := StartPoll(newId, now);
      }
      FinishGeneration();
    }

    /** The new entry of `generateImage`, with its outcome applied. */
    method AddGeneratedImage(newId: string, text: string, patch: ImagePatch)
      modifies this
      ensures State() == AddImage(old(State()), newId, text, patch)
    {
      images := MapImages([NewImage(newId, text)] + images, newId, patch);
    }

    /** The `finally` block of `generateImage`. */
    method FinishGeneration()
      modifies this
      ensures State() == FinishGenerate(old(State()))
    {
      isGenerating := false;
      settings := settings.(prompt := "");
    }

    /** The part of a derivative handler after its request. */
    method HandleDerivativeResponse(kind: DerivativeKind, imageId: string, parent: GeneratedImage, choice: nat,
                                    outcome: DerivativeOutcome, newId: string, now: int)
      modifies this
      ensures State() == DerivativeResponseStep(old(State()), kind, imageId, parent, choice, outcome, newId, now)
    {
      match outcome
      case HttpError(code) =>
        HandleError(imageId, "HTTP error! status: " + DecimalString(code));
      case DerivativeFailed(m) =>
        HandleError(imageId, m.GetOr(FailureMessage(kind)));
      case DerivativeReplied(h) =>
        if Present(h) {
          AddDerivedImage(imageId, NewDerivative(kind, newId, imageId, parent, choice, h.value));
          var _ := StartPoll(newId, now);
        }
    }

    /** The `setGeneratedImages` call of a derivative handler. */
    method AddDerivedImage(parentImageId: string, child: GeneratedImage)
      modifies this
      ensures State() == AddChild(old(State()), parentImageId, child)
    {
      images := InsertDerivative(images, parentImageId, child);
    }

    method HandleDerivative(kind: DerivativeKind, imageId: string, choice: int, outcome: DerivativeOutcome,
                            newId: string, now: int)
      modifies this
      ensures State() == HandleDerivativeStep(old(State()), kind, imageId, choice, outcome, newId, now)
    {
      if choice < 1 || choice > 4 {
        return;
      }
      var image := FindImage(images, imageId);
      if image.None? || !Present(image.value.hash) {
        return;
      }
      HandleDerivativeResponse(kind, imageId, image.value, choice, outcome, newId, now);
    }

    method HandleUpscale(imageId: string, choice: int, outcome: DerivativeOutcome, newId: string, now: int)
      modifies this
      ensures State() == HandleDerivativeStep(old(State()), UpscaleJob, imageId, choice, outcome, newId, now)
    {
      HandleDerivative(UpscaleJob, imageId, choice, outcome, newId, now);
    }

    method HandleVariation(imageId: string, choice: int, outcome: DerivativeOutcome, newId: string, now: int)
      modifies this
      ensures State() == HandleDerivativeStep(old(State()), VariationJob, imageId, choice, outcome, newId, now)
    {
      HandleDerivative(VariationJob, imageId, choice, outcome, newId, now);
    }
  }
}
