/**
 * The try-on wizard (App.tsx): five state cells updated by event handlers.
 * The handlers are modelled twice: as a pure transition function `Apply` on
 * snapshots of the five cells, about which the reachable-state invariant is
 * proved, and as the methods of class `Wizard`, each of which updates the
 * fields in place and is proved to move the object's snapshot by `Apply`.
 */
module App {
  import opened Types
  import ImageUploader

  const MissingImagesMessage: string := "Both product and model images are required."
  const UnknownErrorMessage: string := "An unknown error occurred."

  /** The values of the five state cells at one moment. */
  datatype Snapshot = Snapshot(
    step: AppStep,
    productImage: Option<ImageState>,
    modelImage: Option<ImageState>,
    generatedImage: Option<string>,
    error: Option<string>)

  /** The state the component starts in, and the one a reset returns to. */
  const Initial: Snapshot := Snapshot(ProductUpload, None, None, None, None)

  /**
   * How the remote generation call settles: the base64 payload it resolves
   * to, or the `message` of what it rejects with (absent when the rejection
   * carries none).
   */
  datatype Outcome = Success(payload: string) | Failure(message: Option<string>)

  /** The arguments of the remote generation call, in the order they are passed. */
  datatype Request = Request(model: ImageState, product: ImageState)

  /** The events the handlers respond to. */
  datatype Event =
    | ProductUploaded(image: ImageState)
    | ModelUploaded(image: ImageState)
    | NextClicked
    | BackClicked
    | GenerateClicked
    | GenerateSettled(outcome: Outcome)
    | ResetClicked

  /** `err.message || "An unknown error occurred."`: the message shown after a failure. */
  function FailureMessage(message: Option<string>): (text: string)
    ensures text != ""
    ensures message.Some? && message.value != "" ==> text == message.value
    ensures message.None? || message.value == "" ==> text == UnknownErrorMessage
  {
    match message
    case Some(m) => if m != "" then m else UnknownErrorMessage
    case None => UnknownErrorMessage
  }

  /**
   * The remote call that clicking Generate makes in state `s`: none when an
   * image is missing, otherwise the model image first and the product second.
   */
  function RemoteRequest(s: Snapshot): (r: Option<Request>)
    ensures r.Some? <==> s.productImage.Some? && s.modelImage.Some?
    ensures r.Some? ==> r.value.model == s.modelImage.value && r.value.product == s.productImage.value
  {
    if s.productImage.Some? && s.modelImage.Some? then
      Some(Request(s.modelImage.value, s.productImage.value))
    else
      None
  }

  /** The events that come from a completed file read. */
  predicate IsUpload(e: Event)
  {
    e.ProductUploaded? || e.ModelUploaded?
  }

  /**
   * What each handler does to the five cells, with no regard to whether the
   * UI offers it. Each cell has its own writers: only a product upload or a
   * reset changes the product image, only a model upload or a reset the
   * model image, only a successful generation or a reset the generated
   * image, and only Generate, a failed generation or a reset the error.
   */
  function Apply(s: Snapshot, e: Event): (r: Snapshot)
    ensures r.productImage != s.productImage ==> e.ProductUploaded? || e.ResetClicked?
    ensures r.modelImage != s.modelImage ==> e.ModelUploaded? || e.ResetClicked?
    ensures r.generatedImage != s.generatedImage ==>
      (e.GenerateSettled? && e.outcome.Success?) || e.ResetClicked?
    ensures r.error != s.error ==>
      e.GenerateClicked? || (e.GenerateSettled? && e.outcome.Failure?) || e.ResetClicked?
    ensures r.step != s.step ==> !IsUpload(e)
    ensures e.ResetClicked? ==> r == Initial
  {
    match e
    case ProductUploaded(image) => s.(productImage := Some(image))
    case ModelUploaded(image) => s.(modelImage := Some(image))
    case NextClicked => s.(step := ModelUpload)
    case BackClicked => s.(step := ProductUpload)
    case GenerateClicked =>
      if RemoteRequest(s).None? then s.(error := Some(MissingImagesMessage))
      else s.(error := None, step := Generating)
    case GenerateSettled(Success(payload)) =>
      s.(generatedImage := Some(payload), step := Result)
    case GenerateSettled(Failure(message)) =>
      s.(error := Some(FailureMessage(message)), step := ModelUpload)
    case ResetClicked => Initial
  }

  /**
   * Event `e` can happen in state `s`. A button click needs the button to
   * be rendered and enabled: Next only on the product step once a product
   * image is present, Back and Generate (disabled without a model image)
   * only on the model step, and Start Over only on the result step; while
   * generating no control is rendered and only the remote call can settle.
   * A file read may complete after the user has moved on, so an upload can
   * arrive in any step.
   */
  predicate Offered(s: Snapshot, e: Event)
    ensures Offered(s, e) && s.step == Generating ==> e.GenerateSettled? || IsUpload(e)
    ensures Offered(s, e) && s.step == Result ==> e.ResetClicked? || IsUpload(e)
    ensures Offered(s, e) && e.GenerateClicked? ==> s.step == ModelUpload && s.modelImage.Some?
    ensures Offered(s, e) && e.GenerateSettled? ==> s.step == Generating
  {
    match e
    case ProductUploaded(_) => true
    case ModelUploaded(_) => true
    case NextClicked => s.step == ProductUpload && s.productImage.Some?
    case BackClicked => s.step == ModelUpload
    case GenerateClicked => s.step == ModelUpload && s.modelImage.Some?
    case GenerateSettled(_) => s.step == Generating
    case ResetClicked => s.step == Result
  }

  /** The reachable-state invariant of the wizard. */
  predicate Invariant(s: Snapshot)
  {
    (s.step != ProductUpload ==> s.productImage.Some?) &&
    (s.step == Generating || s.step == Result ==> s.modelImage.Some?) &&
    (s.generatedImage.Some? <==> s.step == Result) &&
    (s.step == Generating || s.step == Result ==> s.error.None?)
  }

  /** The snapshot after the events of `events` are handled in order, starting from `s`. */
  function Run(s: Snapshot, events: seq<Event>): Snapshot
    decreases |events|
  {
    if events == [] then s else Run(Apply(s, events[0]), events[1..])
  }

  /** Every event of `events` can happen at the moment it does. */
  predicate Admissible(s: Snapshot, events: seq<Event>)
    decreases |events|
  {
    events == [] || (Offered(s, events[0]) && Admissible(Apply(s, events[0]), events[1..]))
  }

  /** Each offered event keeps the invariant. */
  lemma StepKeepsInvariant(s: Snapshot, e: Event)
    requires Invariant(s) && Offered(s, e)
    ensures Invariant(Apply(s, e))
  {
  }

  /** A sequence of offered events keeps the invariant. */
  lemma {:induction false} TraceKeepsInvariant(s: Snapshot, events: seq<Event>)
    requires Invariant(s) && Admissible(s, events)
    ensures Invariant(Run(s, events))
    decreases |events|
  {
    if events != [] {
      StepKeepsInvariant(s, events[0]);
      TraceKeepsInvariant(Apply(s, events[0]), events[1..]);
    }
  }

  /** Every state the UI can reach from the initial state satisfies the invariant. */
  lemma {:induction false} ReachableStatesSatisfyInvariant(events: seq<Event>)
    requires Admissible(Initial, events)
    ensures Invariant(Run(Initial, events))
  {
    TraceKeepsInvariant(Initial, events);
  }

  /**
   * On a reachable state the defensive check in the generate handler never
   * fires: whenever Generate is enabled, both images are present.
   */
  lemma GenerateCheckNeverFires(s: Snapshot)
    requires Invariant(s) && Offered(s, GenerateClicked)
    ensures RemoteRequest(s).Some?
    ensures Apply(s, GenerateClicked).step == Generating
  {
  }

  /**
   * Generate with either image missing only sets the error to the fixed
   * message: the step, both images and the generated image stay as they were.
   */
  lemma GenerateWithImageMissing(s: Snapshot)
    requires s.productImage.None? || s.modelImage.None?
    ensures RemoteRequest(s).None?
    ensures Apply(s, GenerateClicked) == s.(error := Some(MissingImagesMessage))
  {
  }

  /**
   * A failed generation returns to the model step with the images of the
   * state it settles in, so Generate is enabled again and makes the request
   * Generate would make in that state. An upload that lands while the call
   * is in flight changes that state, so this is the failed request only
   * when no upload came in between (see `RetryRepeatsFailedRequest`).
   */
  lemma FailureAllowsRetry(s: Snapshot, message: Option<string>)
    requires Invariant(s) && s.step == Generating
    ensures var t := Apply(s, GenerateSettled(Failure(message)));
      Offered(t, GenerateClicked) && RemoteRequest(t) == RemoteRequest(s) && t.generatedImage.None?
  {
  }

  /**
   * With no upload between clicking Generate and the failure, clicking
   * Generate again makes exactly the request that failed.
   */
  lemma RetryRepeatsFailedRequest(s: Snapshot, message: Option<string>)
    requires Invariant(s) && Offered(s, GenerateClicked)
    ensures RemoteRequest(s).Some?
    ensures var t := Run(s, [GenerateClicked, GenerateSettled(Failure(message))]);
      Offered(t, GenerateClicked) && RemoteRequest(t) == RemoteRequest(s)
  {
    var settle := GenerateSettled(Failure(message));
    var g := Apply(s, GenerateClicked);
    assert [GenerateClicked, settle][1..] == [settle];
    assert Run(g, [settle]) == Apply(g, settle) by {
      assert [settle][1..] == [];
    }
  }

  /** The component: the five state cells and one method per handler. */
  class Wizard {
    var step: AppStep
    var productImage: Option<ImageState>
    var modelImage: Option<ImageState>
    var generatedImage: Option<string>
    var error: Option<string>

    /** The current values of the five cells. */
    function State(): Snapshot
      reads this
    {
      Snapshot(step, productImage, modelImage, generatedImage, error)
    }

    /** The object invariant: the state is one the wizard can reach. */
    predicate Valid()
      reads this
    {
      Invariant(State())
    }

    /** The initial values of the five `useState` cells. */
    constructor ()
      ensures step == ProductUpload
      ensures productImage == None && modelImage == None
      ensures generatedImage == None && error == None
      ensures State() == Initial && Valid()
    {
      step := ProductUpload;
      productImage := None;
      modelImage := None;
      generatedImage := None;
      error := None;
    }

    /** handleProductUpload: replace the product image wholesale. */
    method HandleProductUpload(image: ImageState)
      modifies this
      ensures productImage == Some(image)
      ensures step == old(step) && modelImage == old(modelImage)
      ensures generatedImage == old(generatedImage) && error == old(error)
      ensures State() == Apply(old(State()), ProductUploaded(image))
      ensures old(Valid()) ==> Valid()
    {
      productImage := Some(image);
    }

    /** handleModelUpload: replace the model image wholesale. */
    method HandleModelUpload(image: ImageState)
      modifies this
      ensures modelImage == Some(image)
      ensures step == old(step) && productImage == old(productImage)
      ensures generatedImage == old(generatedImage) && error == old(error)
      ensures State() == Apply(old(State()), ModelUploaded(image))
      ensures old(Valid()) ==> Valid()
    {
      modelImage := Some(image);
    }

    /** The Next button, rendered on the product step once a product image is present. */
    method Next()
      requires step == ProductUpload && productImage.Some?
      modifies this
      ensures step == ModelUpload
      ensures productImage == old(productImage) && modelImage == old(modelImage)
      ensures generatedImage == old(generatedImage) && error == old(error)
      ensures State() == Apply(old(State()), NextClicked)
      ensures old(Valid()) ==> Valid()
    {
      step := ModelUpload;
    }

    /** The Back button of the model step. */
    method Back()
      requires step == ModelUpload
      modifies this
      ensures step == ProductUpload
      ensures productImage == old(productImage) && modelImage == old(modelImage)
      ensures generatedImage == old(generatedImage) && error == old(error)
      ensures State() == Apply(old(State()), BackClicked)
      ensures old(Valid()) ==> Valid()
    {
      step := ProductUpload;
    }

    /**
     * handleGenerate up to the remote call, for the Generate button of the
     * model step (disabled without a model image). Returns the call it
     * makes, None when it stops at the missing-image check.
     */
    method StartGenerate() returns (request: Option<Request>)
      requires step == ModelUpload && modelImage.Some?
      modifies this
      ensures request == RemoteRequest(old(State()))
      ensures request.None? ==>
        error == Some(MissingImagesMessage) && step == old(step)
      ensures request.Some? ==>
        error == None && step == Generating &&
        request.value == Request(old(modelImage).value, old(productImage).value)
      ensures productImage == old(productImage) && modelImage == old(modelImage)
      ensures generatedImage == old(generatedImage)
      ensures State() == Apply(old(State()), GenerateClicked)
      ensures old(Valid()) ==> request.Some? && Valid()
    {
      if productImage.None? || modelImage.None? {
        error := Some(MissingImagesMessage);
        request := None;
        return;
      }
      error := None;
      step := Generating;
      request := Some(Request(modelImage.value, productImage.value));
    }

    /** handleGenerate after the remote call settles; nothing else can happen while generating. */
    method FinishGenerate(outcome: Outcome)
      requires step == Generating
      modifies this
      ensures outcome.Success? ==>
        generatedImage == Some(outcome.payload) && step == Result && error == old(error)
      ensures outcome.Failure? ==>
        error == Some(FailureMessage(outcome.message)) && step == ModelUpload &&
        generatedImage == old(generatedImage)
      ensures productImage == old(productImage) && modelImage == old(modelImage)
      ensures State() == Apply(old(State()), GenerateSettled(outcome))
      ensures old(Valid()) ==> Valid()
    {
      match outcome
      case Success(payload) =>
        generatedImage := Some(payload);
        step := Result;
      case Failure(message) =>
        error := Some(FailureMessage(message));
        step := ModelUpload;
    }

    /** handleReset: every cell back to its initial value, from any state. */
    method HandleReset()
      modifies this
      ensures step == ProductUpload
      ensures productImage == None && modelImage == None
      ensures generatedImage == None && error == None
      ensures State() == Initial && Valid()
    {
      step := ProductUpload;
      productImage := None;
      modelImage := None;
      generatedImage := None;
      error := None;
    }

    /**
     * The product uploader: a file selection is read to `dataUrl` (None
     * when no file was chosen) and every image the uploader reports is
     * handed to handleProductUpload.
     */
    method SelectProductFile(dataUrl: Option<string>)
      modifies this
      ensures dataUrl.None? ==> State() == old(State())
      ensures dataUrl.Some? ==>
        State() == Apply(old(State()), ProductUploaded(ImageUploader.ParseDataUrl(dataUrl.value)))
    {
      var uploads := ImageUploader.HandleFileChange(dataUrl);
      if uploads != [] {
        HandleProductUpload(uploads[0]);
      }
    }

    /** The model uploader, wired to handleModelUpload in the same way. */
    method SelectModelFile(dataUrl: Option<string>)
      modifies this
      ensures dataUrl.None? ==> State() == old(State())
      ensures dataUrl.Some? ==>
        State() == Apply(old(State()), ModelUploaded(ImageUploader.ParseDataUrl(dataUrl.value)))
    {
      var uploads := ImageUploader.HandleFileChange(dataUrl);
      if uploads != [] {
        HandleModelUpload(uploads[0]);
      }
    }
  }
}
